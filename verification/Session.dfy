/**
  Clients and their sockets over all connections of the order server. The first message of a client binds it to the
  socket it came on, for good; only what comes on that socket is checked and passed on, and everything the client is
  told goes back on it.
*/
module Sessions {
  import opened Types
  import opened Transport
  import opened OrderEntry

  /** Request frames on real sockets, from known clients. */
  ghost predicate Requests(ps: seq<Packet>, n: nat) {
    forall i | 0 <= i < |ps| :: RequestFrom(ps[i], n)
  }

  predicate RequestFrom(p: Packet, n: nat) {
    p.sock != NO_SOCKET && |p.frame| == REQUEST_FRAME && ClientOf(BodyOf(p.frame)) < n
  }

  predicate IsFrom(p: Packet, client: nat) {
    |p.frame| == REQUEST_FRAME && ClientOf(BodyOf(p.frame)) == client
  }

  /** A server that has heard from nobody. */
  function Fresh(n: nat): Server {
    Server(seq(n, _ => NO_SOCKET), Ones(n))
  }

  function Ones(n: nat): (ks: seq<nat>)
    ensures |ks| == n
  {
    seq(n, _ => 1)
  }

  /** All packets in the order in which they are read, whatever connections they come on. */
  ghost function ServeAll(s: Server, ps: seq<Packet>): (r: Served)
    requires |s.socketOf| == |s.nextExp| && Requests(ps, |s.socketOf|)
    ensures |r.server.socketOf| == |r.server.nextExp| == |s.socketOf|
  {
    if ps == [] then Served(s, [])
    else
      var r, p := ServeAll(s, ps[..|ps| - 1]), ps[|ps| - 1];
      assert RequestFrom(p, |s.socketOf|);
      Served(OnFrame(r.server, p.sock, p.frame),
             r.bodies + if Accepts(r.server, p.sock, p.frame) then [BodyOf(p.frame)] else [])
  }

  /** The socket of a client's first packet. */
  function FirstSocket(ps: seq<Packet>, client: nat): int {
    if ps == [] then NO_SOCKET else if IsFrom(ps[0], client) then ps[0].sock else FirstSocket(ps[1..], client)
  }

  /** A client's frames on one socket. */
  function FramesOn(ps: seq<Packet>, client: nat, sock: int): (fs: seq<seq<byte>>)
    ensures forall i | 0 <= i < |fs| :: |fs[i]| == REQUEST_FRAME
  {
    if ps == [] then []
    else
      var p := ps[|ps| - 1];
      FramesOn(ps[..|ps| - 1], client, sock) + if IsFrom(p, client) && p.sock == sock then [p.frame] else []
  }

  /** The bodies that are this client's. */
  function OfClient(bodies: seq<seq<byte>>, client: nat): seq<seq<byte>> {
    if bodies == [] then []
    else
      var b := bodies[|bodies| - 1];
      OfClient(bodies[..|bodies| - 1], client)
      + if |b| >= CLIENT_AT + CLIENT_BYTES && ClientOf(b) == client then [b] else []
  }

  lemma {:induction false} FirstMore(ps: seq<Packet>, p: Packet, client: nat, n: nat)
    requires Requests(ps, n)
    ensures var f := FirstSocket(ps, client);
            FirstSocket(ps + [p], client)
            == if f != NO_SOCKET then f else if IsFrom(p, client) then p.sock else NO_SOCKET
    decreases |ps|
  {
    var qs := ps + [p];
    if ps == [] {
      assert qs == [p] && qs[1..] == [];
    } else {
      assert RequestFrom(ps[0], n);
      assert qs[1..] == ps[1..] + [p] && qs[0] == ps[0];
      FirstMore(ps[1..], p, client, n);
    }
  }

  lemma {:induction false} FramesMore(ps: seq<Packet>, p: Packet, client: nat, sock: int)
    ensures FramesOn(ps + [p], client, sock)
         == FramesOn(ps, client, sock) + if IsFrom(p, client) && p.sock == sock then [p.frame] else []
  {
    assert (ps + [p])[..|ps|] == ps;
  }

  /** A client that has not been heard from has no frames on any socket. */
  lemma {:induction false} NotHeard(ps: seq<Packet>, client: nat, sock: int, n: nat)
    requires Requests(ps, n) && FirstSocket(ps, client) == NO_SOCKET
    ensures FramesOn(ps, client, sock) == []
  {
    if ps != [] {
      var before, p := ps[..|ps| - 1], ps[|ps| - 1];
      assert ps == before + [p] && RequestFrom(p, n);
      FirstMore(before, p, client, n);
      NotHeard(before, client, sock, n);
    }
  }

  lemma {:induction false} OfClientMore(bodies: seq<seq<byte>>, b: seq<byte>, client: nat)
    ensures OfClient(bodies + [b], client)
         == OfClient(bodies, client) + if |b| >= CLIENT_AT + CLIENT_BYTES && ClientOf(b) == client then [b] else []
  {
    assert (bodies + [b])[..|bodies|] == bodies;
  }

  lemma {:induction false} CheckMore(next: nat, fs: seq<seq<byte>>, f: seq<byte>)
    requires |f| >= SEQ_BYTES && forall i | 0 <= i < |fs| :: |fs[i]| >= SEQ_BYTES
    ensures var c, c' := Check(next, fs), Check(next, fs + [f]);
            c' == if NumberOf(f) == c.next then Checked(c.next + 1, c.bodies + [BodyOf(f)]) else c
  {
    assert (fs + [f])[..|fs|] == fs;
  }

  /** What the server should know and have passed on, client by client. */
  ghost predicate ServedOnly(r: Served, ps: seq<Packet>, client: nat)
    requires client < |r.server.socketOf| == |r.server.nextExp|
  {
    var sock := FirstSocket(ps, client);
    var c := Check(1, FramesOn(ps, client, sock));
    && r.server.socketOf[client] == sock
    && r.server.nextExp[client] == c.next
    && OfClient(r.bodies, client) == c.bodies
  }

  /**
    Over every sequence of packets on any connections: each client is bound to the socket of its first packet, and of
    its packets exactly those on that socket are checked, by number alone, and passed on in order.
  */
  lemma {:induction false} ServedExactly(n: nat, ps: seq<Packet>, client: nat)
    requires Requests(ps, n) && client < n
    ensures ServedOnly(ServeAll(Fresh(n), ps), ps, client)
  {
    if ps == [] {
      NothingServed(n, client);
    } else {
      var before, p := ps[..|ps| - 1], ps[|ps| - 1];
      assert ps == before + [p] && RequestFrom(p, n);
      ServedExactly(n, before, client);
      var r := ServeAll(Fresh(n), before);
      hide ServeAll, FirstSocket, FramesOn, OfClient, Check, ServedOnly;
      PacketServed(r, before, p, client, n);
    }
  }

  lemma {:induction false} NothingServed(n: nat, client: nat)
    requires client < n
    ensures ServedOnly(Served(Fresh(n), []), [], client)
  {
    assert FramesOn([], client, NO_SOCKET) == [] && OfClient([], client) == [];
  }

  lemma {:induction false} PacketServed(r: Served, ps: seq<Packet>, p: Packet, client: nat, n: nat)
    requires client < |r.server.socketOf| == |r.server.nextExp| == n && Requests(ps, n) && RequestFrom(p, n)
    requires ServedOnly(r, ps, client)
    ensures var more := if Accepts(r.server, p.sock, p.frame) then [BodyOf(p.frame)] else [];
            ServedOnly(Served(OnFrame(r.server, p.sock, p.frame), r.bodies + more), ps + [p], client)
  {
    hide FirstSocket, FramesOn, OfClient, Check;
    var sock := FirstSocket(ps + [p], client);
    FirstMore(ps, p, client, n);
    FramesMore(ps, p, client, sock);
    OfClientMore(r.bodies, BodyOf(p.frame), client);
    assert r.bodies + [] == r.bodies;
    if FirstSocket(ps, client) == NO_SOCKET {
      NotHeard(ps, client, NO_SOCKET, n);
      NotHeard(ps, client, sock, n);
    }
    if IsFrom(p, client) && p.sock == sock {
      CheckMore(1, FramesOn(ps, client, sock), p.frame);
    } else {
      assert FramesOn(ps, client, sock) + [] == FramesOn(ps, client, sock);
    }
  }

  /** A binding is set once and never changes. */
  lemma {:induction false} BoundForGood(n: nat, ps: seq<Packet>, qs: seq<Packet>, client: nat)
    requires Requests(ps + qs, n) && client < n
    ensures Requests(ps, n)
    ensures var was, now := ServeAll(Fresh(n), ps).server.socketOf[client],
                            ServeAll(Fresh(n), ps + qs).server.socketOf[client];
            was != NO_SOCKET ==> now == was
    decreases |qs|
  {
    assert forall i | 0 <= i < |ps| :: RequestFrom((ps + qs)[i], n);
    if qs == [] {
      assert ps + qs == ps;
    } else {
      var rs, q := qs[..|qs| - 1], qs[|qs| - 1];
      assert (ps + qs)[..|ps + qs| - 1] == ps + rs;
      assert ps + qs == ps + rs + [q];
      assert forall i | 0 <= i < |ps + rs| :: RequestFrom((ps + qs)[i], n);
      BoundForGood(n, ps, rs, client);
      ServedExactly(n, ps + rs, client);
      ServedExactly(n, ps + qs, client);
      FirstMore(ps + rs, q, client, n);
      hide ServeAll, FirstSocket;
    }
  }

  // ---------------------------------------------------------------- buffer by buffer

  function On(sock: int, frames: seq<seq<byte>>): (ps: seq<Packet>)
    ensures |ps| == |frames|
  {
    seq(|frames|, i requires 0 <= i < |frames| => Packet(sock, frames[i]))
  }

  /** One receive buffer more is so many packets on its socket. */
  lemma {:induction false} BufferServed(s: Server, ps: seq<Packet>, sock: int, frames: seq<seq<byte>>)
    requires |s.socketOf| == |s.nextExp| && Requests(ps + On(sock, frames), |s.socketOf|) && Requests(ps, |s.socketOf|)
    requires forall i | 0 <= i < |frames| :: Addressed(s, frames[i])
    ensures var r, r' := ServeAll(s, ps), ServeAll(s, ps + On(sock, frames));
            && (forall i | 0 <= i < |frames| :: Addressed(r.server, frames[i]))
            && var more := Serve(r.server, sock, frames);
               r'.server == more.server && r'.bodies == r.bodies + more.bodies
    decreases |frames|
  {
    hide ServeAll, Serve, OnFrame, Accepts;
    var r := ServeAll(s, ps);
    forall i | 0 <= i < |frames| ensures Addressed(r.server, frames[i]) {
      assert Addressed(s, frames[i]);
    }
    if frames == [] {
      assert ps + On(sock, frames) == ps;
      NothingYet(r.server, sock, 0);
    } else {
      var before, f := frames[..|frames| - 1], frames[|frames| - 1];
      var some, all := ps + On(sock, before), ps + On(sock, frames);
      assert all[..|all| - 1] == some && all[|all| - 1] == Packet(sock, f);
      assert forall i | 0 <= i < |all| :: RequestFrom(all[i], |s.socketOf|);
      BufferServed(s, ps, sock, before);
      LastPacket(s, all);
      LastFrame(r.server, sock, frames);
    }
  }

  lemma {:induction false} LastPacket(s: Server, ps: seq<Packet>)
    requires |s.socketOf| == |s.nextExp| && Requests(ps, |s.socketOf|) && ps != []
    ensures Requests(ps[..|ps| - 1], |s.socketOf|) && RequestFrom(ps[|ps| - 1], |s.socketOf|)
    ensures var r, r', p := ServeAll(s, ps[..|ps| - 1]), ServeAll(s, ps), ps[|ps| - 1];
            && r'.server == OnFrame(r.server, p.sock, p.frame)
            && r'.bodies == r.bodies + if Accepts(r.server, p.sock, p.frame) then [BodyOf(p.frame)] else []
  {
  }

  lemma {:induction false} LastFrame(s: Server, sock: int, frames: seq<seq<byte>>)
    requires frames != [] && forall i | 0 <= i < |frames| :: Addressed(s, frames[i])
    ensures var r, r', f := Serve(s, sock, frames[..|frames| - 1]), Serve(s, sock, frames), frames[|frames| - 1];
            && Addressed(r.server, f) && r'.server == OnFrame(r.server, sock, f)
            && r'.bodies == r.bodies + if Accepts(r.server, sock, f) then [BodyOf(f)] else []
  {
    assert Addressed(s, frames[|frames| - 1]);
  }

  // ---------------------------------------------------------------- what clients are told

  /** What arrives on a socket. */
  function Arriving(ps: seq<Packet>, sock: int): seq<seq<byte>> {
    if ps == [] then []
    else Arriving(ps[..|ps| - 1], sock) + if ps[|ps| - 1].sock == sock then [ps[|ps| - 1].frame] else []
  }

  /** A client whose request has been passed on is bound to a socket, so that sending to it does not fail. */
  lemma {:induction false} AcceptedIsBound(n: nat, ps: seq<Packet>, client: nat)
    requires Requests(ps, n) && client < n && OfClient(ServeAll(Fresh(n), ps).bodies, client) != []
    ensures ServeAll(Fresh(n), ps).server.socketOf[client] == FirstSocket(ps, client) != NO_SOCKET
  {
    ServedExactly(n, ps, client);
    if FirstSocket(ps, client) == NO_SOCKET {
      NotHeard(ps, client, NO_SOCKET, n);
    }
  }

  ghost predicate HeardAll(socketOf: seq<int>, bodies: seq<seq<byte>>, client: nat)
    requires forall i | 0 <= i < |bodies| :: ResponseTo(bodies[i], |socketOf|)
    requires client < |socketOf|
  {
    var d := Dispatched(socketOf, Ones(|socketOf|), bodies);
    var fs := Arriving(d.sent, socketOf[client]);
    && (forall i | 0 <= i < |fs| :: |fs[i]| == RESPONSE_FRAME)
    && var taken := Taken(client, 1, fs);
       taken.bodies == OfClient(bodies, client) && taken.next == d.nextOut[client] <= |bodies| + 1
  }

  lemma {:induction false} TakenMore(client: nat, fs: seq<seq<byte>>, f: seq<byte>)
    requires |f| == RESPONSE_FRAME && forall i | 0 <= i < |fs| :: |fs[i]| == RESPONSE_FRAME
    ensures forall i | 0 <= i < |fs + [f]| :: |(fs + [f])[i]| == RESPONSE_FRAME
    ensures var c, c' := Taken(client, 1, fs), Taken(client, 1, fs + [f]);
            c' == if ClientOf(BodyOf(f)) == client && NumberOf(f) == c.next
                  then Checked(c.next + 1, c.bodies + [BodyOf(f)]) else c
  {
    assert (fs + [f])[..|fs|] == fs;
  }

  lemma {:induction false} ArrivingMore(ps: seq<Packet>, p: Packet, sock: int)
    ensures Arriving(ps + [p], sock) == Arriving(ps, sock) + if p.sock == sock then [p.frame] else []
  {
    assert (ps + [p])[..|ps|] == ps;
  }

  /**
    A gateway hears all of its client's responses, in order and each once, on the one socket its client is bound to,
    whatever other clients share that socket.
  */
  lemma {:induction false} GatewayHears(socketOf: seq<int>, bodies: seq<seq<byte>>, client: nat)
    requires forall i | 0 <= i < |bodies| :: ResponseTo(bodies[i], |socketOf|)
    requires client < |socketOf| && |bodies| + 1 < TWO_64
    ensures HeardAll(socketOf, bodies, client)
  {
    if bodies == [] {
      assert Arriving([], socketOf[client]) == [] && OfClient([], client) == [];
    } else {
      var before, b := bodies[..|bodies| - 1], bodies[|bodies| - 1];
      assert bodies == before + [b] && ResponseTo(b, |socketOf|);
      GatewayHears(socketOf, before, client);
      GatewayHears(socketOf, before, ClientOf(b));
      hide Arriving, OfClient, Taken, Frame;
      OneMoreHeard(socketOf, before, b, client);
    }
  }

  lemma {:induction false} OneMoreHeard(socketOf: seq<int>, bodies: seq<seq<byte>>, b: seq<byte>, client: nat)
    requires forall i | 0 <= i < |bodies + [b]| :: ResponseTo((bodies + [b])[i], |socketOf|)
    requires (forall i | 0 <= i < |bodies| :: ResponseTo(bodies[i], |socketOf|)) && ResponseTo(b, |socketOf|)
    requires client < |socketOf| && |bodies| + 2 < TWO_64
    requires HeardAll(socketOf, bodies, client) && HeardAll(socketOf, bodies, ClientOf(b))
    ensures HeardAll(socketOf, bodies + [b], client)
  {
    hide Arriving, OfClient, Taken, Frame;
    var d, c := Dispatched(socketOf, Ones(|socketOf|), bodies), ClientOf(b);
    assert (bodies + [b])[..|bodies|] == bodies;
    var f := Frame(d.nextOut[c], b);
    FrameSays(d.nextOut[c], b);
    FrameLength(d.nextOut[c], b);
    ArrivingMore(d.sent, Packet(socketOf[c], f), socketOf[client]);
    OfClientMore(bodies, b, client);
    var fs := Arriving(d.sent, socketOf[client]);
    assert fs + [] == fs && OfClient(bodies, client) + [] == OfClient(bodies, client);
    if socketOf[c] == socketOf[client] {
      TakenMore(client, fs, f);
    }
  }

  lemma {:induction false} FrameLength(num: nat, body: seq<byte>)
    requires |body| == RESPONSE_BYTES
    ensures |Frame(num, body)| == RESPONSE_FRAME
  {
  }
}
