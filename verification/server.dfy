/**
 The subscriber set and broadcast loop of internal/server/server.go.

 A connection is identified by a number; the outcome of `client.WriteJSON` is
 an oracle indexed by the client and by the position of the event in the
 stream. Each insert, delete and broadcast happens under `clientsMu` and is one
 atomic step here.
 */
module Server {
  import opened Handler

  /** The identity of one `*websocket.Conn`. */
  type Conn = nat

  /** A client connects: it joins the set. */
  function Connect(clients: set<Conn>, c: Conn): (r: set<Conn>)
    ensures c in r
    ensures forall d :: d != c ==> (d in r <==> d in clients)
  {
    clients + {c}
  }

  /** A client disconnects: exactly that connection leaves the set. */
  function Disconnect(clients: set<Conn>, c: Conn): (r: set<Conn>)
    ensures c !in r
    ensures forall d :: d != c ==> (d in r <==> d in clients)
  {
    clients - {c}
  }

  /** Disconnecting a client that had just connected restores the set. */
  lemma DisconnectUndoesConnect(clients: set<Conn>, c: Conn)
    requires c !in clients
    ensures Disconnect(Connect(clients, c), c) == clients
  {
  }

  /** A second disconnect of the same client (after a failed write removed it) changes nothing. */
  lemma DisconnectIdempotent(clients: set<Conn>, c: Conn)
    ensures Disconnect(Disconnect(clients, c), c) == Disconnect(clients, c)
  {
  }

  /**
   One event of RunWebSocketServer: a write is attempted on every client in the
   set; every client whose write fails is closed and deleted.
   */
  method Broadcast(clients: set<Conn>, writeOk: Conn -> bool) returns (remaining: set<Conn>, attempted: set<Conn>, closed: set<Conn>)
    ensures attempted == clients
    ensures forall c :: c in remaining <==> c in clients && writeOk(c)
    ensures forall c :: c in closed <==> c in clients && !writeOk(c)
  {
    remaining := clients;
    attempted := {};
    closed := {};
    var todo := clients;
    while todo != {}
      invariant todo <= clients
      invariant attempted == clients - todo
      invariant forall c :: c in remaining <==> c in clients && (c in todo || writeOk(c))
      invariant forall c :: c in closed <==> c in attempted && !writeOk(c)
      decreases todo
    {
      var client :| client in todo;
      attempted := attempted + {client};
      if !writeOk(client) {
        closed := closed + {client};
        remaining := remaining - {client};
      }
      todo := todo - {client};
    }
  }

  /** The clients that survive the writes of the first `n` events. */
  function Survivors(clients: set<Conn>, writeOk: (Conn, nat) -> bool, n: nat): set<Conn> {
    set c | c in clients && forall k :: 0 <= k < n ==> writeOk(c, k)
  }

  /** What one event was sent to. */
  datatype Delivery = Delivery(message: EventMessage, recipients: set<Conn>)

  /**
   RunWebSocketServer over the messages received from the channel, in order:
   each message is attempted on every client present at that moment, and the
   set shrinks by the clients whose write failed.
   */
  method RunWebSocketServer(clients: set<Conn>, events: seq<EventMessage>, writeOk: (Conn, nat) -> bool)
    returns (final: set<Conn>, deliveries: seq<Delivery>)
    ensures |deliveries| == |events|
    ensures forall i :: 0 <= i < |events| ==>
              deliveries[i].message == events[i] && deliveries[i].recipients == Survivors(clients, writeOk, i)
    ensures final == Survivors(clients, writeOk, |events|)
    ensures final <= clients
  {
    final := clients;
    deliveries := [];
    var i: nat := 0;
    while i < |events|
      invariant 0 <= i <= |events|
      invariant final == Survivors(clients, writeOk, i)
      invariant |deliveries| == i
      invariant forall j :: 0 <= j < i ==>
                  deliveries[j].message == events[j] && deliveries[j].recipients == Survivors(clients, writeOk, j)
    {
      var remaining, attempted, closed := Broadcast(final, (c: Conn) => writeOk(c, i));
      deliveries := deliveries + [Delivery(events[i], attempted)];
      assert remaining == Survivors(clients, writeOk, i + 1) by {
        forall c
          ensures c in remaining <==> c in Survivors(clients, writeOk, i + 1)
        {
          if c in Survivors(clients, writeOk, i + 1) {
            assert forall k :: 0 <= k < i ==> writeOk(c, k);
          }
        }
      }
      final := remaining;
      i := i + 1;
    }
  }

  /** A client whose write of one of the first `n` events fails is gone afterwards. */
  lemma SurvivorsExact(clients: set<Conn>, writeOk: (Conn, nat) -> bool, n: nat, c: Conn, k: nat)
    requires c in clients && k < n && !writeOk(c, k)
    ensures c !in Survivors(clients, writeOk, n)
  {
  }

  /** A client whose writes of the first `n` events all succeed is never dropped. */
  lemma SurvivorsKeepSucceeding(clients: set<Conn>, writeOk: (Conn, nat) -> bool, n: nat)
    ensures forall d :: d in clients && (forall j :: 0 <= j < n ==> writeOk(d, j)) ==> d in Survivors(clients, writeOk, n)
  {
  }
}
