/**
  One direction of an open connection from end to end: messages enter the send buffer as numbered frames, the
  kernel takes any part of what is pending at any time, the other side receives in chunks of any size.
*/
module Connection {
  import opened Types
  import opened Transport
  import opened OrderEntry

  /** Messages handed over so far, bytes on their way, and what the receiver has made of them. */
  datatype Link = Link(
    sent: seq<seq<byte>>, pending: seq<byte>, wire: seq<byte>, rest: seq<byte>, next: nat, accepted: seq<seq<byte>>)

  const OPENED: Link := Link([], [], [], [], 1, [])

  datatype Event = Enqueue(body: seq<byte>) | KernelTakes(k: nat) | Deliver(k: nat)

  /** `len` is the size of every message body. Numbers are 64-bit. */
  predicate Enabled(len: nat, s: Link, e: Event) {
    match e
    case Enqueue(body) => |body| == len && |s.sent| + 1 < TWO_64
    case KernelTakes(k) => k <= |s.pending|
    case Deliver(k) => k <= |s.wire|
  }

  function Arrived(s: Link, k: nat): seq<byte>
    requires k <= |s.wire|
  {
    s.rest + s.wire[..k]
  }

  ghost function After(len: nat, s: Link, e: Event): Link
    requires Enabled(len, s, e)
  {
    match e
    case Enqueue(body) => s.(sent := s.sent + [body], pending := s.pending + Frame(|s.sent| + 1, body))
    case KernelTakes(k) => s.(pending := s.pending[k..], wire := s.wire + s.pending[..k])
    case Deliver(k) =>
      var n := SEQ_BYTES + len;
      var frames := Frames(Arrived(s, k), n);
      FrameSizes(Arrived(s, k), n);
      var c := Check(s.next, frames);
      s.(wire := s.wire[k..], rest := Left(Arrived(s, k), n), next := c.next, accepted := s.accepted + c.bodies)
  }

  ghost predicate Sized(bodies: seq<seq<byte>>, len: nat) {
    forall i | 0 <= i < |bodies| :: |bodies[i]| == len
  }

  /** The frames from message `k` on, back to back. */
  function Flow(bodies: seq<seq<byte>>, k: nat): seq<byte>
    requires k <= |bodies|
    decreases |bodies| - k
  {
    if k == |bodies| then [] else Frame(k + 1, bodies[k]) + Flow(bodies, k + 1)
  }

  lemma {:induction false} FlowMore(bodies: seq<seq<byte>>, k: nat, body: seq<byte>)
    requires k <= |bodies|
    ensures Flow(bodies + [body], k) == Flow(bodies, k) + Frame(|bodies| + 1, body)
    decreases |bodies| - k
  {
    hide Frame;
    if k == |bodies| {
      assert Flow(bodies + [body], k + 1) == [];
    } else {
      FlowMore(bodies, k + 1, body);
      Regroup(Frame(k + 1, bodies[k]), Flow(bodies, k + 1), Frame(|bodies| + 1, body));
    }
  }

  /** What the gateway writes is what is on its way, less what has been taken off its front. */
  lemma {:induction false} StreamIsFlow(bodies: seq<seq<byte>>, k: nat)
    requires k <= |bodies|
    ensures Stream(bodies, 1) == Stream(bodies[..k], 1) + Flow(bodies, k)
    decreases |bodies| - k
  {
    hide Frame;
    if k == |bodies| {
      assert bodies[..k] == bodies;
    } else {
      StreamIsFlow(bodies, k + 1);
      StreamMore(bodies, k, 1);
      Regroup(Stream(bodies[..k], 1), Frame(k + 1, bodies[k]), Flow(bodies, k + 1));
    }
  }

  lemma {:induction false} Regroup(a: seq<byte>, b: seq<byte>, c: seq<byte>)
    ensures a + (b + c) == a + b + c
  {
  }

  /** These are the frames of the messages from `k` on. */
  ghost predicate Numbered(frames: seq<seq<byte>>, bodies: seq<seq<byte>>, k: nat) {
    k + |frames| <= |bodies| && forall i | 0 <= i < |frames| :: frames[i] == Frame(k + 1 + i, bodies[k + i])
  }

  lemma {:induction false} NumberedHead(f: seq<byte>, frames: seq<seq<byte>>, bodies: seq<seq<byte>>, k: nat)
    requires k < |bodies| && f == Frame(k + 1, bodies[k]) && Numbered(frames, bodies, k + 1)
    ensures Numbered([f] + frames, bodies, k)
  {
  }

  /** Two ways to split the same bytes. */
  lemma {:induction false} SplitAt(f: seq<byte>, g: seq<byte>, x: seq<byte>, y: seq<byte>)
    requires f + g == x + y && |x| >= |f|
    ensures x[..|f|] == f && g == x[|f|..] + y
  {
    assert f == (f + g)[..|f|] == (x + y)[..|f|] == x[..|f|];
    assert g == (f + g)[|f|..] == (x + y)[|f|..] == x[|f|..] + y;
  }

  /** Cutting frames off a stream of equal frames gives those frames. */
  lemma {:induction false} FramesOfStream(bodies: seq<seq<byte>>, k: nat, x: seq<byte>, y: seq<byte>, len: nat)
    requires Sized(bodies, len) && k <= |bodies| && Flow(bodies, k) == x + y
    ensures var n := SEQ_BYTES + len;
            var frames := Frames(x, n);
            Numbered(frames, bodies, k) && Flow(bodies, k + |frames|) == Left(x, n) + y
    decreases |x|
  {
    var n := SEQ_BYTES + len;
    if |x| >= n {
      assert |x + y| > 0;
      var f := Frame(k + 1, bodies[k]);
      assert |f| == n;
      SplitAt(f, Flow(bodies, k + 1), x, y);
      hide Frame, Flow, Numbered;
      FramesOfStream(bodies, k + 1, x[n..], y, len);
      NumberedHead(f, Frames(x[n..], n), bodies, k);
    } else {
      hide Frame, Flow;
    }
  }

  /** Frames with the expected numbers all pass. */
  lemma {:induction false} AllPass(frames: seq<seq<byte>>, bodies: seq<seq<byte>>, k: nat)
    requires Numbered(frames, bodies, k) && |bodies| < TWO_64
             && forall i | 0 <= i < |frames| :: |frames[i]| >= SEQ_BYTES
    ensures Check(k + 1, frames) == Checked(k + 1 + |frames|, bodies[k..k + |frames|])
  {
    hide Frame;
    if frames != [] {
      var j := |frames| - 1;
      AllPass(frames[..j], bodies, k);
      FrameSays(k + 1 + j, bodies[k + j]);
      hide NumberOf, BodyOf;
      assert frames[j] == Frame(k + 1 + j, bodies[k + j]);
      assert bodies[k..k + j + 1] == bodies[k..k + j] + [bodies[k + j]];
    }
  }

  // ---------------------------------------------------------------- every run

  ghost predicate Inv(len: nat, s: Link) {
    && Sized(s.sent, len) && |s.sent| < TWO_64
    && s.accepted <= s.sent && s.next == |s.accepted| + 1
    && Flow(s.sent, |s.accepted|) == s.rest + (s.wire + s.pending)
    && |s.rest| < SEQ_BYTES + len
  }

  lemma {:induction false} EnqueueKeepsInv(len: nat, s: Link, body: seq<byte>)
    requires Inv(len, s) && Enabled(len, s, Enqueue(body))
    ensures Inv(len, After(len, s, Enqueue(body)))
  {
    FlowMore(s.sent, |s.accepted|, body);
    var f := Frame(|s.sent| + 1, body);
    hide Frame, Flow;
    Regroup(s.rest, s.wire + s.pending, f);
    Regroup(s.wire, s.pending, f);
  }

  lemma {:induction false} KernelKeepsInv(len: nat, s: Link, k: nat)
    requires Inv(len, s) && Enabled(len, s, KernelTakes(k))
    ensures Inv(len, After(len, s, KernelTakes(k)))
  {
  }

  lemma {:induction false} DeliverKeepsInv(len: nat, s: Link, k: nat)
    requires Inv(len, s) && Enabled(len, s, Deliver(k))
    ensures Inv(len, After(len, s, Deliver(k)))
    ensures |After(len, s, Deliver(k)).accepted| == |s.accepted| + |Frames(Arrived(s, k), SEQ_BYTES + len)|
  {
    var n, j := SEQ_BYTES + len, |s.accepted|;
    var x, y := Arrived(s, k), s.wire[k..] + s.pending;
    var frames := Frames(x, n);
    hide Flow, Frames, Check, Numbered;
    assert s.rest + (s.wire + s.pending) == x + y by {
      assert s.wire == s.wire[..k] + s.wire[k..];
      Regroup(s.wire[..k], s.wire[k..], s.pending);
      Regroup(s.rest, s.wire[..k], y);
    }
    FramesOfStream(s.sent, j, x, y, len);
    FrameSizes(x, n);
    AllPass(frames, s.sent, j);
    AcceptMore(s.sent, s.accepted, |frames|);
  }

  lemma {:induction false} AcceptMore(sent: seq<seq<byte>>, accepted: seq<seq<byte>>, m: nat)
    requires accepted <= sent && |accepted| + m <= |sent|
    ensures accepted + sent[|accepted|..|accepted| + m] <= sent
  {
  }

  ghost function Exec(len: nat, es: seq<Event>): Option<Link> {
    if es == [] then Some(OPENED)
    else
      match Exec(len, es[..|es| - 1])
      case None => None
      case Some(s) => if Enabled(len, s, es[|es| - 1]) then Some(After(len, s, es[|es| - 1])) else None
  }

  lemma {:induction false} InvHolds(len: nat, es: seq<Event>)
    requires Exec(len, es).Some?
    ensures Inv(len, Exec(len, es).value)
  {
    hide Inv, After;
    if es == [] {
      assert Inv(len, OPENED) by { OpenedInv(len); }
    } else {
      InvHolds(len, es[..|es| - 1]);
      var s := Exec(len, es[..|es| - 1]).value;
      match es[|es| - 1]
      case Enqueue(body) => EnqueueKeepsInv(len, s, body);
      case KernelTakes(k) => KernelKeepsInv(len, s, k);
      case Deliver(k) => DeliverKeepsInv(len, s, k);
    }
  }

  lemma {:induction false} OpenedInv(len: nat)
    ensures Inv(len, OPENED)
  {
  }

  /**
    Exactly once, in order: whatever the kernel takes and however it delivers, what the receiver has accepted
    is a prefix of what was sent, the bytes of the two differ by just those still on their way, and once nothing is on
    its way everything has been accepted.
  */
  lemma {:induction false} ExactlyOnce(len: nat, es: seq<Event>)
    requires Exec(len, es).Some?
    ensures var s := Exec(len, es).value;
            && s.accepted <= s.sent && s.next == |s.accepted| + 1
            && Stream(s.sent, 1) == Stream(s.accepted, 1) + (s.rest + (s.wire + s.pending))
            && (s.pending == [] && s.wire == [] ==> s.accepted == s.sent)
  {
    InvHolds(len, es);
    var s := Exec(len, es).value;
    assert |s.accepted| == |s.sent| ==> s.accepted == s.sent;
    StreamIsFlow(s.sent, |s.accepted|);
    assert s.sent[..|s.accepted|] == s.accepted;
  }

  /** No frame that arrives ever fails the sequence check. */
  lemma {:induction false} NoneRejected(len: nat, es: seq<Event>, k: nat)
    requires Exec(len, es).Some? && k <= |Exec(len, es).value.wire|
    ensures var s := Exec(len, es).value;
            |After(len, s, Deliver(k)).accepted| == |s.accepted| + |Frames(Arrived(s, k), SEQ_BYTES + len)|
  {
    InvHolds(len, es);
    DeliverKeepsInv(len, Exec(len, es).value, k);
  }
}
