/**
  Both ends of the order-entry connection: the client's order gateway numbers its requests and checks the
  numbers of responses, the exchange's order server checks the numbers of requests client by client.
*/
module OrderEntry {
  import opened Types
  import opened Transport
  import opened Sequencers

  const RESPONSE_BYTES: nat := 42
  const RESPONSE_FRAME: nat := 50

  /** No connection yet for a client. */
  const NO_SOCKET: int := -1

  // ---------------------------------------------------------------- what a frame says

  function NumberOf(frame: seq<byte>): nat
    requires |frame| >= SEQ_BYTES
  {
    Decode(frame[..SEQ_BYTES])
  }

  function BodyOf(frame: seq<byte>): seq<byte>
    requires |frame| >= SEQ_BYTES
  {
    frame[SEQ_BYTES..]
  }

  /** The client id stands behind the type byte of requests and responses alike. */
  function ClientOf(body: seq<byte>): nat
    requires |body| >= CLIENT_AT + CLIENT_BYTES
  {
    Decode(body[CLIENT_AT..CLIENT_AT + CLIENT_BYTES])
  }

  function Frame(num: nat, body: seq<byte>): seq<byte> {
    Encode(num, SEQ_BYTES) + body
  }

  /** Consecutively numbered frames, back to back. */
  function Stream(bodies: seq<seq<byte>>, first: nat): seq<byte> {
    if bodies == [] then []
    else Stream(bodies[..|bodies| - 1], first) + Frame(first + |bodies| - 1, bodies[|bodies| - 1])
  }

  lemma {:induction false} FrameSays(num: nat, body: seq<byte>)
    requires num < TWO_64
    ensures NumberOf(Frame(num, body)) == num && BodyOf(Frame(num, body)) == body
  {
    assert Pow256(8) == TWO_64 by {
      assert Pow256(2) == 0x1_0000 && Pow256(4) == TWO_32 && Pow256(6) == TWO_32 * 0x1_0000;
    }
    DecodeEncode(num, SEQ_BYTES);
    assert Frame(num, body)[..SEQ_BYTES] == Encode(num, SEQ_BYTES);
  }

  lemma {:induction false} StreamMore(bodies: seq<seq<byte>>, k: nat, first: nat)
    requires k < |bodies|
    ensures Stream(bodies[..k + 1], first) == Stream(bodies[..k], first) + Frame(first + k, bodies[k])
  {
    assert bodies[..k + 1][..k] == bodies[..k];
  }

  lemma {:induction false} StreamGrows(bodies: seq<seq<byte>>, j: nat, first: nat)
    requires j <= |bodies|
    ensures |Stream(bodies[..j], first)| <= |Stream(bodies, first)|
  {
    if j == |bodies| {
      assert bodies[..j] == bodies;
    } else {
      var most := bodies[..|bodies| - 1];
      StreamGrows(most, j, first);
      assert most[..j] == bodies[..j];
    }
  }

  // ---------------------------------------------------------------- checking numbers

  /** The bodies of the frames that carry the number expected when they come. */
  datatype Checked = Checked(next: nat, bodies: seq<seq<byte>>)

  function Check(next: nat, frames: seq<seq<byte>>): Checked
    requires forall i | 0 <= i < |frames| :: |frames[i]| >= SEQ_BYTES
  {
    if frames == [] then Checked(next, [])
    else
      var c := Check(next, frames[..|frames| - 1]);
      var f := frames[|frames| - 1];
      if NumberOf(f) == c.next then Checked(c.next + 1, c.bodies + [BodyOf(f)]) else c
  }

  // ---------------------------------------------------------------- the order server

  /** Per client: the socket its first message came on, and the number expected next. */
  datatype Server = Server(socketOf: seq<int>, nextExp: seq<nat>)

  predicate Addressed(s: Server, frame: seq<byte>) {
    |frame| == REQUEST_FRAME && |s.socketOf| == |s.nextExp| && ClientOf(BodyOf(frame)) < |s.socketOf|
  }

  function Owned(s: Server, sock: int, client: nat): Server
    requires client < |s.socketOf|
  {
    if s.socketOf[client] == NO_SOCKET then s.(socketOf := s.socketOf[client := sock]) else s
  }

  predicate Accepts(s: Server, sock: int, frame: seq<byte>)
    requires Addressed(s, frame)
  {
    var client := ClientOf(BodyOf(frame));
    Owned(s, sock, client).socketOf[client] == sock && NumberOf(frame) == s.nextExp[client]
  }

  function OnFrame(s: Server, sock: int, frame: seq<byte>): Server
    requires Addressed(s, frame)
  {
    var client := ClientOf(BodyOf(frame));
    var o := Owned(s, sock, client);
    if Accepts(s, sock, frame) then o.(nextExp := o.nextExp[client := o.nextExp[client] + 1]) else o
  }

  datatype Served = Served(server: Server, bodies: seq<seq<byte>>)

  function Serve(s: Server, sock: int, frames: seq<seq<byte>>): (r: Served)
    requires forall i | 0 <= i < |frames| :: Addressed(s, frames[i])
    ensures |r.server.socketOf| == |s.socketOf| && |r.server.nextExp| == |s.nextExp|
    decreases |frames|
  {
    if frames == [] then Served(s, [])
    else
      var r := Serve(s, sock, frames[..|frames| - 1]);
      var f := frames[|frames| - 1];
      assert Addressed(s, f);
      Served(OnFrame(r.server, sock, f), r.bodies + if Accepts(r.server, sock, f) then [BodyOf(f)] else [])
  }

  function StampAll(rx: int, bodies: seq<seq<byte>>): (r: seq<Stamped<seq<byte>>>)
    ensures |r| == |bodies|
  {
    seq(|bodies|, i requires 0 <= i < |bodies| => Stamped(rx, bodies[i]))
  }

  lemma {:induction false} NothingYet(s: Server, sock: int, rx: int)
    ensures Serve(s, sock, []) == Served(s, []) && StampAll(rx, []) == []
  {
  }

  lemma {:induction false} ServeMore(s: Server, sock: int, frames: seq<seq<byte>>, i: nat, rx: int)
    requires i < |frames| && forall k | 0 <= k < |frames| :: Addressed(s, frames[k])
    ensures var r, r' := Serve(s, sock, frames[..i]), Serve(s, sock, frames[..i + 1]);
            && Addressed(r.server, frames[i])
            && r'.server == OnFrame(r.server, sock, frames[i])
            && StampAll(rx, r'.bodies) == StampAll(rx, r.bodies)
                 + if Accepts(r.server, sock, frames[i]) then [Stamped(rx, BodyOf(frames[i]))] else []
  {
    assert Addressed(s, frames[i]);
    assert frames[..i + 1][..i] == frames[..i];
  }

  lemma {:induction false} ServeGrows(s: Server, sock: int, frames: seq<seq<byte>>, j: nat)
    requires j <= |frames| && forall k | 0 <= k < |frames| :: Addressed(s, frames[k])
    ensures |Serve(s, sock, frames[..j]).bodies| <= |Serve(s, sock, frames).bodies|
  {
    if j == |frames| {
      assert frames[..j] == frames;
    } else {
      var most := frames[..|frames| - 1];
      ServeGrows(s, sock, most, j);
      assert most[..j] == frames[..j];
    }
  }

  // ---------------------------------------------------------------- responses

  /** A frame on a socket. */
  datatype Packet = Packet(sock: int, frame: seq<byte>)

  /** Per client the number of its next response, and what was sent. */
  datatype Dispatch = Dispatch(nextOut: seq<nat>, sent: seq<Packet>)

  /** A response for a known client. */
  predicate ResponseTo(body: seq<byte>, n: nat) {
    |body| == RESPONSE_BYTES && ClientOf(body) < n
  }

  /** Every response goes out under its client's next number, on its client's socket. */
  function Dispatched(socketOf: seq<int>, nextOut: seq<nat>, bodies: seq<seq<byte>>): (d: Dispatch)
    requires |nextOut| == |socketOf| && forall i | 0 <= i < |bodies| :: ResponseTo(bodies[i], |socketOf|)
    ensures |d.nextOut| == |socketOf|
  {
    if bodies == [] then Dispatch(nextOut, [])
    else
      var d, b := Dispatched(socketOf, nextOut, bodies[..|bodies| - 1]), bodies[|bodies| - 1];
      assert ResponseTo(b, |socketOf|);
      var c := ClientOf(b);
      Dispatch(d.nextOut[c := d.nextOut[c] + 1], d.sent + [Packet(socketOf[c], Frame(d.nextOut[c], b))])
  }

  lemma {:induction false} NothingSent(socketOf: seq<int>, nextOut: seq<nat>)
    requires |nextOut| == |socketOf|
    ensures Dispatched(socketOf, nextOut, []) == Dispatch(nextOut, [])
  {
  }

  lemma {:induction false} DispatchedMore(socketOf: seq<int>, nextOut: seq<nat>, bodies: seq<seq<byte>>, i: nat)
    requires |nextOut| == |socketOf| && forall i | 0 <= i < |bodies| :: ResponseTo(bodies[i], |socketOf|)
    requires i < |bodies|
    ensures ResponseTo(bodies[i], |socketOf|)
    ensures var d, d' := Dispatched(socketOf, nextOut, bodies[..i]), Dispatched(socketOf, nextOut, bodies[..i + 1]);
            var c := ClientOf(bodies[i]);
            && d'.nextOut == d.nextOut[c := d.nextOut[c] + 1]
            && d'.sent == d.sent + [Packet(socketOf[c], Frame(d.nextOut[c], bodies[i]))]
  {
    assert bodies[..i + 1][..i] == bodies[..i];
  }

  class OrderServer {
    const cidSocket: array<int>
    const cidNextExp: array<nat>
    const cidNextOut: array<nat>
    /** What has been written to the clients' sockets. */
    var sent: seq<Packet>
    const sequencer: FIFOSequencer<seq<byte>>

    ghost predicate Valid()
      reads this, sequencer
    {
      && cidSocket.Length == cidNextExp.Length == cidNextOut.Length && sequencer.Valid()
      && (cidSocket as object) != (cidNextExp as object) && (cidSocket as object) != (cidNextOut as object)
      && cidNextExp != cidNextOut
    }

    ghost function View(): Server
      reads this, cidSocket, cidNextExp
    {
      Server(cidSocket[..], cidNextExp[..])
    }

    constructor (clients: nat, capacity: nat)
      ensures Valid() && fresh(cidSocket) && fresh(cidNextExp) && fresh(sequencer) && fresh(sequencer.pending)
      ensures fresh(cidNextOut) && cidNextOut[..] == seq(clients, _ => 1) && sent == []
      ensures View() == Server(seq(clients, _ => NO_SOCKET), seq(clients, _ => 1))
      ensures sequencer.Waiting() == [] && sequencer.pending.Length == capacity
    {
      cidSocket := new int[clients](_ => NO_SOCKET);
      cidNextExp := new nat[clients](_ => 1);
      cidNextOut := new nat[clients](_ => 1);
      sent := [];
      sequencer := new FIFOSequencer<seq<byte>>(capacity, []);
    }

    /** One frame: the first message of a client binds it to the socket, and only the expected number passes. */
    method HandleFrame(sock: int, frame: seq<byte>, rx: int) returns (ok: bool)
      requires Valid() && Addressed(View(), frame)
      modifies cidSocket, cidNextExp, sequencer, sequencer.pending
      ensures Valid() && View() == OnFrame(old(View()), sock, frame)
      ensures var more := if Accepts(old(View()), sock, frame) then [Stamped(rx, BodyOf(frame))] else [];
              && (ok <==> more == [] || |old(sequencer.Waiting())| < sequencer.pending.Length)
              && sequencer.Waiting() == old(sequencer.Waiting()) + if ok then more else []
    {
      var client := ClientOf(BodyOf(frame));
      ok := true;
      if cidSocket[client] == NO_SOCKET {
        cidSocket[client] := sock;
      }
      if cidSocket[client] == sock && NumberOf(frame) == cidNextExp[client] {
        cidNextExp[client] := cidNextExp[client] + 1;
        ok := sequencer.AddClientRequest(rx, BodyOf(frame));
      }
    }

    /** Frames in order, until the sequencer is full. */
    method HandleFrames(sock: int, frames: seq<seq<byte>>, rx: int) returns (ok: bool)
      requires Valid() && forall i | 0 <= i < |frames| :: Addressed(View(), frames[i])
      modifies cidSocket, cidNextExp, sequencer, sequencer.pending
      ensures Valid()
      ensures var r := Serve(old(View()), sock, frames);
              && (ok <==> |old(sequencer.Waiting())| + |r.bodies| <= sequencer.pending.Length)
              && (ok ==> View() == r.server && sequencer.Waiting() == old(sequencer.Waiting()) + StampAll(rx, r.bodies))
    {
      hide OnFrame, Accepts, StampAll, Serve, Addressed;
      ghost var s, waiting := View(), sequencer.Waiting();
      var i := 0;
      assert frames[..0] == [];
      NothingYet(s, sock, rx);
      while i < |frames|
        invariant 0 <= i <= |frames| && Valid() && (forall k | 0 <= k < |frames| :: Addressed(s, frames[k]))
        invariant View() == Serve(s, sock, frames[..i]).server
        invariant sequencer.Waiting() == waiting + StampAll(rx, Serve(s, sock, frames[..i]).bodies)
      {
        ServeMore(s, sock, frames, i, rx);
        ServeGrows(s, sock, frames, i + 1);
        ok := HandleFrame(sock, frames[i], rx);
        if !ok {
          return;
        }
        i := i + 1;
      }
      assert frames[..i] == frames;
      ok := true;
    }

    /** All complete frames of one receive buffer. */
    method RecvCallback(socket: TCPSocket, sock: int, rx: int) returns (ok: bool)
      requires Valid() && socket.Valid()
      requires var frames := Frames(socket.Received(), REQUEST_FRAME);
               forall i | 0 <= i < |frames| :: Addressed(View(), frames[i])
      modifies cidSocket, cidNextExp, sequencer, sequencer.pending, socket`nextRcvValid, socket.inbound
      ensures Valid() && socket.Valid() && socket.Received() == Left(old(socket.Received()), REQUEST_FRAME)
      ensures var r := Serve(old(View()), sock, Frames(old(socket.Received()), REQUEST_FRAME));
              && (ok <==> |old(sequencer.Waiting())| + |r.bodies| <= sequencer.pending.Length)
              && (ok ==> View() == r.server && sequencer.Waiting() == old(sequencer.Waiting()) + StampAll(rx, r.bodies))
    {
      hide Frames, Left, Serve, StampAll, Addressed;
      var frames := socket.TakeFrames(REQUEST_FRAME);
      ok := HandleFrames(sock, frames, rx);
    }

    /** Drains the queued responses; fails at the first one for a client that has no socket. */
    method SendResponses(responses: seq<seq<byte>>) returns (ok: bool)
      requires Valid() && forall i | 0 <= i < |responses| :: ResponseTo(responses[i], cidSocket.Length)
      modifies this`sent, cidNextOut
      ensures Valid() && View() == old(View())
      ensures ok <==> forall i | 0 <= i < |responses| :: HasSocket(responses[i])
      ensures var d := Dispatched(cidSocket[..], old(cidNextOut[..]), responses);
              ok ==> cidNextOut[..] == d.nextOut && sent == old(sent) + d.sent
    {
      hide Dispatched, Frame, ClientOf;
      var i := 0;
      assert responses[..0] == [];
      NothingSent(cidSocket[..], cidNextOut[..]);
      while i < |responses|
        invariant 0 <= i <= |responses| && Valid() && View() == old(View())
        invariant forall k | 0 <= k < i :: HasSocket(responses[k])
        invariant cidNextOut[..] == Dispatched(cidSocket[..], old(cidNextOut[..]), responses[..i]).nextOut
        invariant sent == old(sent) + Dispatched(cidSocket[..], old(cidNextOut[..]), responses[..i]).sent
      {
        DispatchedMore(cidSocket[..], old(cidNextOut[..]), responses, i);
        var client := ClientOf(responses[i]);
        if cidSocket[client] == NO_SOCKET {
          return false;
        }
        sent := sent + [Packet(cidSocket[client], Frame(cidNextOut[client], responses[i]))];
        cidNextOut[client] := cidNextOut[client] + 1;
        i := i + 1;
      }
      assert responses[..i] == responses;
      ok := true;
    }

    predicate HasSocket(body: seq<byte>)
      requires ResponseTo(body, cidSocket.Length)
      reads cidSocket
    {
      cidSocket[ClientOf(body)] != NO_SOCKET
    }
  }

  // ---------------------------------------------------------------- the order gateway

  /** Responses for this client with the expected number; anything else is dropped. */
  function Taken(clientId: nat, next: nat, frames: seq<seq<byte>>): Checked
    requires forall i | 0 <= i < |frames| :: |frames[i]| == RESPONSE_FRAME
  {
    if frames == [] then Checked(next, [])
    else
      var c := Taken(clientId, next, frames[..|frames| - 1]);
      var f := frames[|frames| - 1];
      if ClientOf(BodyOf(f)) == clientId && NumberOf(f) == c.next
      then Checked(c.next + 1, c.bodies + [BodyOf(f)])
      else c
  }

  lemma {:induction false} FrameSizes(bs: seq<byte>, n: nat)
    requires n > 0
    ensures forall i | 0 <= i < |Frames(bs, n)| :: |Frames(bs, n)[i]| == n
    decreases |bs|
  {
    if |bs| >= n {
      FrameSizes(bs[n..], n);
    }
  }

  class OrderGateway {
    const clientId: nat
    const socket: TCPSocket
    var nextOutgoing: nat
    var nextExp: nat
    /** What has been written to the trade engine's queue. */
    var responses: seq<seq<byte>>

    ghost predicate Valid()
      reads this, socket
    {
      socket.Valid()
    }

    constructor (clientId: nat, bufferSize: nat)
      ensures Valid() && fresh(socket) && fresh(socket.outbound) && fresh(socket.inbound)
      ensures this.clientId == clientId && nextOutgoing == 1 && nextExp == 1 && responses == []
      ensures socket.Pending() == [] && !socket.closed
    {
      this.clientId := clientId;
      socket := new TCPSocket(bufferSize);
      nextOutgoing, nextExp, responses := 1, 1, [];
    }

    /** Drains the queued requests into the socket; aborts when the send buffer overflows. */
    method SendRequests(requests: seq<seq<byte>>) returns (ok: bool)
      requires Valid() && !socket.closed
      modifies this`nextOutgoing, socket`nextSend, socket`nextSendValid, socket.outbound
      ensures Valid()
      ensures ok <==> |old(socket.Pending())| + |Stream(requests, old(nextOutgoing))| <= socket.outbound.Length
      ensures ok ==> nextOutgoing == old(nextOutgoing) + |requests|
      ensures ok ==> socket.Pending() == old(socket.Pending()) + Stream(requests, old(nextOutgoing))
    {
      ghost var before := socket.Pending();
      var i := 0;
      assert requests[..0] == [] && Stream([], nextOutgoing) == [];
      hide Stream, Frame, Encode;
      while i < |requests|
        invariant 0 <= i <= |requests| && Valid() && nextOutgoing == old(nextOutgoing) + i
        invariant socket.Pending() == before + Stream(requests[..i], old(nextOutgoing))
      {
        StreamMore(requests, i, old(nextOutgoing));
        StreamGrows(requests, i + 1, old(nextOutgoing));
        ghost var sent := socket.Pending();
        ghost var frame := Frame(nextOutgoing, requests[i]);
        assert sent + frame == before + (Stream(requests[..i], old(nextOutgoing)) + frame);
        ok := SendFrame(requests[i]);
        if !ok {
          return;
        }
        i := i + 1;
      }
      assert requests[..i] == requests;
      ok := true;
    }

    /** The number and the request go out as two pieces. */
    method SendFrame(request: seq<byte>) returns (ok: bool)
      requires Valid() && !socket.closed
      modifies this`nextOutgoing, socket`nextSend, socket`nextSendValid, socket.outbound
      ensures Valid()
      ensures ok <==> |old(socket.Pending())| + |Frame(old(nextOutgoing), request)| <= socket.outbound.Length
      ensures ok ==> nextOutgoing == old(nextOutgoing) + 1
      ensures ok ==> socket.Pending() == old(socket.Pending()) + Frame(old(nextOutgoing), request)
    {
      ghost var before := socket.Pending();
      ok := socket.Send(Encode(nextOutgoing, SEQ_BYTES));
      if !ok {
        return;
      }
      ok := socket.Send(request);
      if !ok {
        return;
      }
      assert socket.Pending() == before + (Encode(nextOutgoing, SEQ_BYTES) + request);
      nextOutgoing := nextOutgoing + 1;
    }

    /** All complete frames of the receive buffer, in order. */
    method RecvCallback()
      requires Valid()
      modifies this`nextExp, this`responses, socket`nextRcvValid, socket.inbound
      ensures Valid() && socket.Received() == Left(old(socket.Received()), RESPONSE_FRAME)
      ensures var frames := Frames(old(socket.Received()), RESPONSE_FRAME);
              && (forall i | 0 <= i < |frames| :: |frames[i]| == RESPONSE_FRAME)
              && var c := Taken(clientId, old(nextExp), frames);
                 nextExp == c.next && responses == old(responses) + c.bodies
    {
      FrameSizes(socket.Received(), RESPONSE_FRAME);
      var frames := socket.TakeFrames(RESPONSE_FRAME);
      var i := 0;
      while i < |frames|
        invariant 0 <= i <= |frames| && Valid() && socket.Received() == Left(old(socket.Received()), RESPONSE_FRAME)
        invariant nextExp == Taken(clientId, old(nextExp), frames[..i]).next
        invariant responses == old(responses) + Taken(clientId, old(nextExp), frames[..i]).bodies
      {
        assert frames[..i + 1][..i] == frames[..i];
        var f := frames[i];
        if ClientOf(BodyOf(f)) == clientId && NumberOf(f) == nextExp {
          nextExp := nextExp + 1;
          responses := responses + [BodyOf(f)];
        }
        i := i + 1;
      }
      assert frames[..i] == frames;
    }
  }

  /** On a connection that carries one client's requests, the server checks nothing but their numbers. */
  lemma {:induction false} ServeIsCheck(s: Server, sock: int, frames: seq<seq<byte>>, client: nat)
    requires client < |s.socketOf| == |s.nextExp| && (s.socketOf[client] == NO_SOCKET || s.socketOf[client] == sock)
    requires forall i | 0 <= i < |frames| :: Addressed(s, frames[i]) && ClientOf(BodyOf(frames[i])) == client
    ensures var r, c := Serve(s, sock, frames), Check(s.nextExp[client], frames);
            && r.bodies == c.bodies && r.server.nextExp[client] == c.next
            && r.server.socketOf[client] == (if frames == [] then s.socketOf[client] else sock)
            && forall d | 0 <= d < |s.nextExp| && d != client ::
                 r.server.nextExp[d] == s.nextExp[d] && r.server.socketOf[d] == s.socketOf[d]
  {
    if frames != [] {
      ServeIsCheck(s, sock, frames[..|frames| - 1], client);
      assert Addressed(s, frames[|frames| - 1]);
    }
  }

  /** The same holds of the gateway, whose connection carries its own responses only. */
  lemma {:induction false} TakenIsCheck(clientId: nat, next: nat, frames: seq<seq<byte>>)
    requires forall i | 0 <= i < |frames| :: |frames[i]| == RESPONSE_FRAME && ClientOf(BodyOf(frames[i])) == clientId
    ensures Taken(clientId, next, frames) == Check(next, frames)
  {
    if frames != [] {
      TakenIsCheck(clientId, next, frames[..|frames| - 1]);
    }
  }

  // ---------------------------------------------------------------- the sequencer's intake

  /** Server and intake expect the same number from every client. */
  ghost predicate SameNumbers(s: Server, i: Intake) {
    forall client | 0 <= client < |s.nextExp| :: Next(i, client) == s.nextExp[client]
  }

  function ItemOf(frame: seq<byte>): Item
    requires |frame| == REQUEST_FRAME
  {
    Item(ClientOf(BodyOf(frame)), NumberOf(frame), BodyOf(frame))
  }

  /** A frame on its client's own socket is an arrival: accepted by the server exactly when the intake accepts it. */
  lemma {:induction false} FrameArrives(s: Server, i: Intake, sock: int, frame: seq<byte>, rx: int)
    requires Addressed(s, frame) && SameNumbers(s, i)
    requires var owner := s.socketOf[ClientOf(BodyOf(frame))]; owner == NO_SOCKET || owner == sock
    ensures var i' := After(i, Arrive(rx, ItemOf(frame)));
            && SameNumbers(OnFrame(s, sock, frame), i')
            && i'.waiting == i.waiting + (if Accepts(s, sock, frame) then [Stamped(rx, ItemOf(frame))] else [])
            && i'.accepted == i.accepted + (if Accepts(s, sock, frame) then [ItemOf(frame)] else [])
  {
  }

  /** A frame on any other socket is dropped and counts for nothing. */
  lemma {:induction false} StrangerDropped(s: Server, sock: int, frame: seq<byte>)
    requires Addressed(s, frame)
    requires var owner := s.socketOf[ClientOf(BodyOf(frame))]; owner != NO_SOCKET && owner != sock
    ensures !Accepts(s, sock, frame) && OnFrame(s, sock, frame) == s
  {
  }
}
