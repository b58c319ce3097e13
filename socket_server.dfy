/**
 * The Unix-socket server that keeps a list of connected overlay clients and
 * pushes each notification code to all of them. The socket calls are not
 * part of this model: an accepted connection arrives as a parameter, and
 * whether `sendall` succeeds for a client is given by an oracle.
 */
module SocketServer {
  import opened Protocol

  /** A connected client socket, by identity. */
  datatype Client = Client(id: nat)

  /** One `sendall` attempt: to whom, and which bytes. */
  datatype Send = Send(to: Client, payload: string)

  /** The listening socket: not created yet, listening, or closed. */
  datatype Endpoint = NoSocket | Listening | Closed

  /** The clients whose send fails, in list order. */
  function Failed(clients: seq<Client>, delivers: Client -> bool): (r: seq<Client>)
    ensures |r| <= |clients|
    ensures forall i :: 0 <= i < |r| ==> r[i] in clients && !delivers(r[i])
    decreases |clients|
  {
    if clients == [] then []
    else (if !delivers(clients[0]) then [clients[0]] else []) + Failed(clients[1..], delivers)
  }

  /** The clients whose send succeeds, in list order. */
  function Survivors(clients: seq<Client>, delivers: Client -> bool): (r: seq<Client>)
    ensures |r| <= |clients|
    ensures forall i :: 0 <= i < |r| ==> r[i] in clients && delivers(r[i])
    decreases |clients|
  {
    if clients == [] then []
    else (if delivers(clients[0]) then [clients[0]] else []) + Survivors(clients[1..], delivers)
  }

  /** list.remove(c): drop the first occurrence of `c`. */
  function RemoveFirst(s: seq<Client>, c: Client): (r: seq<Client>)
    requires c in s
    ensures |r| == |s| - 1
    ensures multiset(r) == multiset(s) - multiset{c}
    decreases |s|
  {
    assert s == [s[0]] + s[1..];
    if s[0] == c then s[1..] else [s[0]] + RemoveFirst(s[1..], c)
  }

  /** The position of the first occurrence of c in s: the one list.remove drops. */
  function FirstIndex(s: seq<Client>, c: Client): (k: nat)
    requires c in s
    ensures k < |s| && s[k] == c && c !in s[..k]
    decreases |s|
  {
    if s[0] == c then 0
    else
      var k := FirstIndex(s[1..], c);
      assert s[..k + 1] == [s[0]] + s[1..][..k];
      k + 1
  }

  /** Putting the head back in front of a tail with one gap leaves the same gap, one place later. */
  lemma ConsKeepsGap(s: seq<Client>, k: nat)
    requires k + 1 < |s|
    ensures [s[0]] + (s[1..][..k] + s[1..][k + 1..]) == s[..k + 1] + s[k + 2..]
  {
    var t := s[1..];
    assert s[..k + 1] == [s[0]] + t[..k];
    assert s[k + 2..] == t[k + 1..];
  }

  /** list.remove drops exactly the first occurrence and keeps everything else in order. */
  lemma {:induction false} RemoveFirstDropsFirstOccurrence(s: seq<Client>, c: Client)
    requires c in s
    ensures var k := FirstIndex(s, c); RemoveFirst(s, c) == s[..k] + s[k + 1..]
    decreases |s|
  {
    if s[0] == c {
      assert s[..0] + s[1..] == s[1..];
    } else {
      RemoveFirstDropsFirstOccurrence(s[1..], c);
      ConsKeepsGap(s, FirstIndex(s[1..], c));
    }
  }

  /** Every client either keeps its place or is dropped: nothing is lost or invented. */
  lemma {:induction false} PartitionSizes(clients: seq<Client>, delivers: Client -> bool)
    ensures |Survivors(clients, delivers)| + |Failed(clients, delivers)| == |clients|
    decreases |clients|
  {
    if clients != [] {
      PartitionSizes(clients[1..], delivers);
    }
  }

  lemma {:induction false} FailedAppend(clients: seq<Client>, c: Client, delivers: Client -> bool)
    ensures Failed(clients + [c], delivers) == Failed(clients, delivers) + (if !delivers(c) then [c] else [])
    decreases |clients|
  {
    if clients == [] {
      assert [] + [c] == [c];
      assert [c][1..] == [];
    } else {
      assert (clients + [c])[1..] == clients[1..] + [c];
      FailedAppend(clients[1..], c, delivers);
    }
  }

  /**
   * Removing the first failed client: the remaining failures are the rest of
   * the failure list, and the survivors are untouched.
   */
  lemma {:induction false} RemovingFirstFailure(clients: seq<Client>, delivers: Client -> bool)
    requires Failed(clients, delivers) != []
    ensures Failed(clients, delivers)[0] in clients
    ensures var rest := RemoveFirst(clients, Failed(clients, delivers)[0]);
      Failed(rest, delivers) == Failed(clients, delivers)[1..] &&
      Survivors(rest, delivers) == Survivors(clients, delivers)
    decreases |clients|
  {
    var f := Failed(clients, delivers)[0];
    assert f in Failed(clients, delivers);
    var x := clients[0];
    if delivers(x) {
      assert Failed(clients, delivers) == Failed(clients[1..], delivers);
      assert x != f;
      RemovingFirstFailure(clients[1..], delivers);
      var rest := RemoveFirst(clients[1..], f);
      assert RemoveFirst(clients, f) == [x] + rest;
      assert ([x] + rest)[1..] == rest;
    } else {
      assert f == x;
      assert RemoveFirst(clients, f) == clients[1..];
    }
  }

  /** With no failures, the survivors are the whole list. */
  lemma {:induction false} NoFailuresKeepsAll(clients: seq<Client>, delivers: Client -> bool)
    requires Failed(clients, delivers) == []
    ensures Survivors(clients, delivers) == clients
    decreases |clients|
  {
    if clients != [] {
      NoFailuresKeepsAll(clients[1..], delivers);
      assert clients == [clients[0]] + clients[1..];
    }
  }

  /**
   * The first pass of broadcast: one `sendall` of `payload` to each client
   * in list order; a failure is noted and the pass goes on.
   */
  method SendAll(clients: seq<Client>, payload: string, delivers: Client -> bool)
    returns (attempts: seq<Send>, disconnected: seq<Client>)
    ensures |attempts| == |clients|
    ensures forall i :: 0 <= i < |attempts| ==> attempts[i] == Send(clients[i], payload)
    ensures disconnected == Failed(clients, delivers)
  {
    disconnected := [];
    attempts := [];
    var i := 0;
    while i < |clients|
      invariant 0 <= i <= |clients|
      invariant |attempts| == i
      invariant forall k :: 0 <= k < i ==> attempts[k] == Send(clients[k], payload)
      invariant disconnected == Failed(clients[..i], delivers)
    {
      var client := clients[i];
      attempts := attempts + [Send(client, payload)];
      FailedAppend(clients[..i], client, delivers);
      assert clients[..i + 1] == clients[..i] + [client];
      if !delivers(client) {
        disconnected := disconnected + [client];
      }
      i := i + 1;
    }
    assert clients[..i] == clients;
  }

  /** A client is dropped exactly when it is in the list and its send fails. */
  lemma {:induction false} FailedMembers(clients: seq<Client>, delivers: Client -> bool, c: Client)
    ensures c in Failed(clients, delivers) <==> c in clients && !delivers(c)
    decreases |clients|
  {
    if clients != [] {
      FailedMembers(clients[1..], delivers, c);
      assert clients == [clients[0]] + clients[1..];
    }
  }

  /** A client is kept exactly when it is in the list and its send succeeds. */
  lemma {:induction false} SurvivorMembers(clients: seq<Client>, delivers: Client -> bool, c: Client)
    ensures c in Survivors(clients, delivers) <==> c in clients && delivers(c)
    decreases |clients|
  {
    if clients != [] {
      SurvivorMembers(clients[1..], delivers, c);
      assert clients == [clients[0]] + clients[1..];
    }
  }

  /** A second broadcast to the same live connections drops nobody more. */
  lemma {:induction false} FailedOfSurvivors(clients: seq<Client>, delivers: Client -> bool)
    ensures Failed(Survivors(clients, delivers), delivers) == []
    ensures Survivors(Survivors(clients, delivers), delivers) == Survivors(clients, delivers)
    decreases |clients|
  {
    if clients != [] {
      FailedOfSurvivors(clients[1..], delivers);
      var rest := Survivors(clients[1..], delivers);
      var kept := Survivors(clients, delivers);
      if delivers(clients[0]) {
        assert kept == [clients[0]] + rest;
        assert kept[0] == clients[0] && kept[1..] == rest;
        assert Failed(kept, delivers) == Failed(rest, delivers);
        assert Survivors(kept, delivers) == [clients[0]] + Survivors(rest, delivers);
      } else {
        assert kept == rest;
      }
    }
  }

  /**
   * The second pass of broadcast: remove each failed client from the list
   * (first occurrence, as list.remove does) and close it, in failure order.
   */
  method DropFailed(all: seq<Client>, disconnected: seq<Client>, delivers: Client -> bool, closedBefore: seq<Client>)
    returns (remaining: seq<Client>, closed: seq<Client>)
    requires disconnected == Failed(all, delivers)
    ensures remaining == Survivors(all, delivers)
    ensures closed == closedBefore + disconnected
  {
    remaining := all;
    closed := closedBefore;
    var j := 0;
    while j < |disconnected|
      invariant 0 <= j <= |disconnected|
      invariant Failed(remaining, delivers) == disconnected[j..]
      invariant Survivors(remaining, delivers) == Survivors(all, delivers)
      invariant closed == closedBefore + disconnected[..j]
    {
      var client := disconnected[j];
      RemovingFirstFailure(remaining, delivers);
      remaining := RemoveFirst(remaining, client);
      closed := closed + [client];
      assert disconnected[..j + 1] == disconnected[..j] + [client];
      j := j + 1;
    }
    NoFailuresKeepsAll(remaining, delivers);
  }

  class Server {
    const socketPath: string
    /** self.clients: the connected clients, in order of acceptance. */
    var clients: seq<Client>
    /** The clients whose connection has been closed, in order (the result of each close is ignored). */
    var closedClients: seq<Client>
    var serverSocket: Endpoint
    /** Whether the socket file exists on disk. */
    var socketFileExists: bool
    var stopRequested: bool

    /** A fresh server; `staleFile` says whether a socket file is left over from an earlier run. */
    constructor (socketPath: string, staleFile: bool)
      ensures this.socketPath == socketPath
      ensures clients == [] && closedClients == []
      ensures serverSocket == NoSocket && socketFileExists == staleFile && !stopRequested
    {
      this.socketPath := socketPath;
      clients := [];
      closedClients := [];
      serverSocket := NoSocket;
      socketFileExists := staleFile;
      stopRequested := false;
    }

    /** The start of the server thread: remove a stale file, bind and listen. */
    method Listen()
      modifies this
      ensures serverSocket == Listening && socketFileExists
      ensures clients == old(clients) && closedClients == old(closedClients)
      ensures stopRequested == old(stopRequested)
    {
      if socketFileExists {
        socketFileExists := false;
      }
      serverSocket := Listening;
      socketFileExists := true;
    }

    /** One successful accept(): the new connection joins the end of the list. */
    method Accept(c: Client)
      modifies this
      ensures clients == old(clients) + [c]
      ensures closedClients == old(closedClients) && serverSocket == old(serverSocket)
      ensures socketFileExists == old(socketFileExists) && stopRequested == old(stopRequested)
    {
      clients := clients + [c];
    }

    /**
     * broadcast(value): try every client once, in list order, with
     * f"{value}\n"; then remove and close each client whose send failed.
     * `delivers(c)` says whether `sendall` to `c` succeeds.
     */
    method Broadcast(value: int, delivers: Client -> bool) returns (attempts: seq<Send>)
      modifies this
      ensures |attempts| == |old(clients)|
      ensures forall i :: 0 <= i < |attempts| ==> attempts[i] == Send(old(clients)[i], Frame(value))
      ensures clients == Survivors(old(clients), delivers)
      ensures closedClients == old(closedClients) + Failed(old(clients), delivers)
      ensures serverSocket == old(serverSocket) && socketFileExists == old(socketFileExists)
      ensures stopRequested == old(stopRequested)
    {
      var disconnected;
      attempts, disconnected := SendAll(clients, Frame(value), delivers);

      var remaining, closed := DropFailed(clients, disconnected, delivers, closedClients);
      clients := remaining;
      closedClients := closed;
    }

    /**
     * stop: close the listening socket if there is one and remove the
     * socket file if it exists (errors from either are ignored). The client
     * list is left as it is. `closedServer` says whether close was called.
     */
    method Stop() returns (closedServer: bool)
      modifies this
      ensures stopRequested && !socketFileExists
      ensures closedServer <==> old(serverSocket) != NoSocket
      ensures serverSocket == if old(serverSocket) == NoSocket then NoSocket else Closed
      ensures clients == old(clients) && closedClients == old(closedClients)
    {
      stopRequested := true;
      closedServer := false;
      if serverSocket != NoSocket {
        serverSocket := Closed;
        closedServer := true;
      }
      if socketFileExists {
        socketFileExists := false;
      }
    }

    /** The end of the server thread once stop is requested: close and unlink. */
    method Shutdown()
      modifies this
      ensures serverSocket == Closed && !socketFileExists
      ensures clients == old(clients) && closedClients == old(closedClients)
      ensures stopRequested == old(stopRequested)
    {
      serverSocket := Closed;
      if socketFileExists {
        socketFileExists := false;
      }
    }
  }
}
