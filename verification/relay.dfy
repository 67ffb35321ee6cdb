/** The legacy `ws` relay: a list of client connections, appended on
    connection and filtered on close, and a broadcast of every incoming
    frame to each client whose `readyState` is OPEN, the sender included.
    The ready states belong to the transport and are a parameter. */
module LegacyRelay {
  import opened Js

  type Conn = nat

  /** The four `WebSocket.readyState` values. */
  datatype ReadyState = Connecting | Open | Closing | Closed

  /** One `client.send(message)`; the frame is passed on untouched. */
  datatype Send = Send(to: Conn, frame: seq<bv8>)

  datatype Relay = Relay(clients: seq<Conn>)

  /** `clients.push(ws)`. */
  function OnConnection(r: Relay, ws: Conn): (r': Relay)
    ensures |r'.clients| == |r.clients| + 1
    ensures r'.clients[..|r.clients|] == r.clients && r'.clients[|r.clients|] == ws
  {
    Relay(r.clients + [ws])
  }

  /** `clients = clients.filter(c => c !== ws)`. */
  function OnClose(r: Relay, ws: Conn): (r': Relay)
    ensures ws !in r'.clients
    ensures forall i :: 0 <= i < |r.clients| && r.clients[i] != ws ==> r.clients[i] in r'.clients
    ensures forall i :: 0 <= i < |r'.clients| ==> r'.clients[i] in r.clients
  {
    Relay(Without(r.clients, ws))
  }

  /** The reference broadcast: the open clients, in list order. */
  function OpenClients(clients: seq<Conn>, readyState: Conn -> ReadyState): seq<Conn>
  {
    if clients == [] then []
    else
      var last := clients[|clients| - 1];
      OpenClients(clients[..|clients| - 1], readyState) + (if readyState(last) == Open then [last] else [])
  }

  /** An incoming frame from `from`: sent once per list entry that is OPEN,
      in list order; the sender is not treated specially. */
  method OnMessage(r: Relay, readyState: Conn -> ReadyState, from: Conn, frame: seq<bv8>) returns (sends: seq<Send>)
    ensures |sends| <= |r.clients|
    ensures forall i :: 0 <= i < |sends| ==> sends[i].frame == frame
    ensures forall i :: 0 <= i < |sends| ==> sends[i].to in r.clients && readyState(sends[i].to) == Open
    ensures forall i :: 0 <= i < |r.clients| && readyState(r.clients[i]) == Open ==> Send(r.clients[i], frame) in sends
    ensures |sends| == |OpenClients(r.clients, readyState)|
    ensures forall i :: 0 <= i < |sends| ==> sends[i].to == OpenClients(r.clients, readyState)[i]
  {
    sends := [];
    var i := 0;
    while i < |r.clients|
      invariant 0 <= i <= |r.clients|
      invariant |sends| <= i
      invariant |sends| == |OpenClients(r.clients[..i], readyState)|
      invariant forall j :: 0 <= j < |sends| ==> sends[j] == Send(OpenClients(r.clients[..i], readyState)[j], frame)
      invariant forall j :: 0 <= j < |sends| ==> sends[j].to in r.clients[..i] && readyState(sends[j].to) == Open
      invariant forall j :: 0 <= j < i && readyState(r.clients[j]) == Open ==> Send(r.clients[j], frame) in sends
    {
      var c := r.clients[i];
      assert r.clients[..i + 1] == r.clients[..i] + [c];
      if readyState(c) == Open {
        sends := sends + [Send(c, frame)];
      }
      i := i + 1;
    }
    assert r.clients[..i] == r.clients;
  }

  /** A connection that closes again leaves the list as it was. */
  lemma ConnectThenClose(r: Relay, ws: Conn)
    requires ws !in r.clients
    ensures OnClose(OnConnection(r, ws), ws) == r
  {
    RemoveSingleOccurrence(r.clients, ws, []);
    assert r.clients + [ws] + [] == r.clients + [ws];
    assert r.clients + [] == r.clients;
  }

  /** Closing a listed connection removes just that entry; the others keep
      their order. */
  lemma CloseKeepsOrder(r: Relay, i: nat)
    requires NoDup(r.clients) && i < |r.clients|
    ensures OnClose(r, r.clients[i]).clients == r.clients[..i] + r.clients[i + 1..]
  {
    var ws := r.clients[i];
    assert r.clients == r.clients[..i] + [ws] + r.clients[i + 1..];
    assert ws !in r.clients[..i] by {
      forall j | 0 <= j < i
        ensures r.clients[..i][j] != ws
      {
        assert r.clients[..i][j] == r.clients[j];
      }
    }
    var rest := r.clients[i + 1..];
    assert ws !in rest by {
      forall j | 0 <= j < |rest|
        ensures rest[j] != ws
      {
        assert rest[j] == r.clients[i + 1 + j];
      }
    }
    RemoveSingleOccurrence(r.clients[..i], ws, rest);
  }

  /** With fresh connections the list never holds a connection twice. */
  lemma ListStaysDuplicateFree(r: Relay, ws: Conn, gone: Conn)
    requires NoDup(r.clients) && ws !in r.clients
    ensures NoDup(OnConnection(r, ws).clients)
    ensures NoDup(OnClose(r, gone).clients)
  {
    AppendFreshKeepsNoDup(r.clients, ws);
    WithoutKeepsNoDup(r.clients, gone);
  }

  /** The reference broadcast keeps only entries of the list, in order, so a
      duplicate-free list gets a duplicate-free broadcast: every OPEN
      client receives the frame exactly once. */
  lemma {:induction false} OpenClientsOnce(clients: seq<Conn>, readyState: Conn -> ReadyState)
    requires NoDup(clients)
    ensures NoDup(OpenClients(clients, readyState))
    ensures forall i :: 0 <= i < |OpenClients(clients, readyState)| ==> OpenClients(clients, readyState)[i] in clients
    decreases |clients|
  {
    if clients != [] {
      var init := clients[..|clients| - 1];
      var last := clients[|clients| - 1];
      assert NoDup(init) by {
        forall i, j | 0 <= i < j < |init|
          ensures init[i] != init[j]
        {
          assert init[i] == clients[i] && init[j] == clients[j];
        }
      }
      OpenClientsOnce(init, readyState);
      var prefix := OpenClients(init, readyState);
      if readyState(last) == Open {
        assert last !in init by {
          forall j | 0 <= j < |init|
            ensures init[j] != last
          {
            assert init[j] == clients[j];
          }
        }
        assert last !in prefix;
        AppendFreshKeepsNoDup(prefix, last);
      } else {
        assert prefix + [] == prefix;
      }
      forall i | 0 <= i < |OpenClients(clients, readyState)|
        ensures OpenClients(clients, readyState)[i] in clients
      {
        if i < |prefix| {
          var c := prefix[i];
          var j :| 0 <= j < |init| && init[j] == c;
          assert clients[j] == c;
        }
      }
    }
  }
}
