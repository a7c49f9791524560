/**
  Order entry over TCP: byte buffers with partial writes and compaction, fixed-size frames cut out of
  arbitrary receive chunks, and the sequence numbers that both ends check.
*/
module Transport {
  import opened Types

  type byte = x: int | 0 <= x < 256

  /** Sizes on the wire: a sequence number, and a request whose client id follows its type byte. */
  const SEQ_BYTES: nat := 8
  const CLIENT_AT: nat := 1
  const CLIENT_BYTES: nat := 4
  const REQUEST_BYTES: nat := 30
  const REQUEST_FRAME: nat := 38

  // ---------------------------------------------------------------- numbers in bytes

  function Pow256(n: nat): (p: nat)
    ensures p > 0
  {
    if n == 0 then 1 else 256 * Pow256(n - 1)
  }

  /** The low `n` bytes of a number, least significant first. */
  function Encode(x: nat, n: nat): (bs: seq<byte>)
    ensures |bs| == n
  {
    if n == 0 then [] else [x % 256] + Encode(x / 256, n - 1)
  }

  function Decode(bs: seq<byte>): nat {
    if bs == [] then 0 else bs[0] + 256 * Decode(bs[1..])
  }

  lemma {:induction false} DecodeEncode(x: nat, n: nat)
    requires x < Pow256(n)
    ensures Decode(Encode(x, n)) == x
  {
    if n > 0 {
      DecodeEncode(x / 256, n - 1);
      assert Encode(x, n)[1..] == Encode(x / 256, n - 1);
    }
  }

  lemma {:induction false} DivideTwice(x: nat, p: nat)
    requires p > 0
    ensures 256 * p > 0 && x / (256 * p) == x / 256 / p
  {
    var q, r := x / 256, x % 256;
    var a, b := q / p, q % p;
    var m := 256 * p;
    assert x == a * m + (256 * b + r) by {
      assert q == a * p + b;
      assert 256 * (a * p) == a * m;
    }
    assert 0 <= 256 * b + r < m;
    Quotient(x, m, a, 256 * b + r);
  }

  lemma {:induction false} Quotient(x: nat, m: nat, a: nat, r: nat)
    requires m > 0 && x == a * m + r && r < m
    ensures x / m == a
  {
    var d, e := x / m, x % m;
    Difference(a, d, m);
    Difference(d, a, m);
  }

  lemma {:induction false} Difference(a: nat, d: nat, m: nat)
    ensures a > d ==> a * m - d * m >= m
  {
    if a > d {
      assert a * m - d * m == (a - d) * m == m + (a - d - 1) * m;
    }
  }

  /** The least significant byte comes first. */
  lemma {:induction false} EncodeAt(x: nat, n: nat, i: nat)
    requires i < n
    ensures Encode(x, n)[i] == (x / Pow256(i)) % 256
  {
    if i > 0 {
      EncodeAt(x / 256, n - 1, i - 1);
      DivideTwice(x, Pow256(i - 1));
    }
  }

  // ---------------------------------------------------------------- frames

  /** The complete frames at the front of a byte sequence, and what is left behind them. */
  function Frames(bs: seq<byte>, n: nat): seq<seq<byte>>
    requires n > 0
    decreases |bs|
  {
    if |bs| < n then [] else [bs[..n]] + Frames(bs[n..], n)
  }

  function Left(bs: seq<byte>, n: nat): (r: seq<byte>)
    requires n > 0
    ensures |r| < n && |r| <= |bs|
    decreases |bs|
  {
    if |bs| < n then bs else Left(bs[n..], n)
  }

  /** Receiving in chunks cuts the same frames as receiving all at once. */
  lemma {:induction false} ChunksCutTheSame(a: seq<byte>, b: seq<byte>, n: nat)
    requires n > 0
    ensures Frames(a + b, n) == Frames(a, n) + Frames(Left(a, n) + b, n)
    ensures Left(a + b, n) == Left(Left(a, n) + b, n)
    decreases |a|
  {
    if |a| >= n {
      assert (a + b)[..n] == a[..n] && (a + b)[n..] == a[n..] + b;
      ChunksCutTheSame(a[n..], b, n);
    }
  }

  // ---------------------------------------------------------------- the socket's buffers

  /** What one call of the kernel's send reports. */
  datatype Outcome = Took(n: nat) | Interrupted | WouldBlock | Failed

  /** How many of `n` offered bytes a run of kernel calls takes, and whether it ends in a closed socket. */
  function TakenOf(outcomes: seq<Outcome>, n: nat): nat
    decreases |outcomes|
  {
    if outcomes == [] || n == 0 then 0
    else
      match outcomes[0]
      case Took(k) => if k == 0 then 0 else Min(k, n) + TakenOf(outcomes[1..], n - Min(k, n))
      case Interrupted => TakenOf(outcomes[1..], n)
      case WouldBlock => 0
      case Failed => 0
  }

  predicate Closes(outcomes: seq<Outcome>, n: nat)
    decreases |outcomes|
  {
    if outcomes == [] || n == 0 then false
    else
      match outcomes[0]
      case Took(k) => k == 0 || Closes(outcomes[1..], n - Min(k, n))
      case Interrupted => Closes(outcomes[1..], n)
      case WouldBlock => false
      case Failed => true
  }

  /** A call that lets the sender go on. */
  predicate GoesOn(o: Outcome) {
    o.Interrupted? || (o.Took? && o.n > 0)
  }

  /** What the kernel is ready to take before the first call that stops the sender. */
  function Ready(outcomes: seq<Outcome>): nat {
    if outcomes == [] || !GoesOn(outcomes[0]) then 0
    else (if outcomes[0].Took? then outcomes[0].n else 0) + Ready(outcomes[1..])
  }

  /** The first call that stops the sender, if any. */
  function Stopper(outcomes: seq<Outcome>): Option<Outcome> {
    if outcomes == [] then None else if GoesOn(outcomes[0]) then Stopper(outcomes[1..]) else Some(outcomes[0])
  }

  /** As much goes out as the kernel is ready for; the socket closes on an error, or an empty send, that is reached. */
  lemma {:induction false} FlushExactly(outcomes: seq<Outcome>, n: nat)
    ensures TakenOf(outcomes, n) == Min(n, Ready(outcomes))
    ensures Closes(outcomes, n) <==>
            n > Ready(outcomes) && Stopper(outcomes).Some? && !Stopper(outcomes).value.WouldBlock?
    decreases |outcomes|
  {
    if outcomes != [] && n > 0 && GoesOn(outcomes[0]) {
      FlushExactly(outcomes[1..], if outcomes[0].Took? then n - Min(outcomes[0].n, n) else n);
    }
  }

  lemma {:induction false} Joined(bs: seq<byte>, i: nat, j: nat, k: nat)
    requires i <= j <= k <= |bs|
    ensures bs[i..k] == bs[i..j] + bs[j..k]
  {
  }

  class TCPSocket {
    const outbound: array<byte>
    var nextSend: nat
    var nextSendValid: nat
    const inbound: array<byte>
    var nextRcvValid: nat
    var closed: bool

    ghost predicate Valid()
      reads this
    {
      nextSend <= nextSendValid <= outbound.Length && nextRcvValid <= inbound.Length && outbound != inbound
    }

    /** Bytes accepted from the caller and not yet taken by the kernel. */
    ghost function Pending(): seq<byte>
      requires Valid()
      reads this, outbound
    {
      outbound[nextSend..nextSendValid]
    }

    ghost function Received(): seq<byte>
      requires Valid()
      reads this, inbound
    {
      inbound[..nextRcvValid]
    }

    constructor (size: nat)
      ensures Valid() && fresh(outbound) && fresh(inbound) && outbound.Length == size == inbound.Length
      ensures Pending() == [] && Received() == [] && !closed
    {
      outbound := new byte[size](_ => 0);
      inbound := new byte[size](_ => 0);
      nextSend, nextSendValid, nextRcvValid, closed := 0, 0, 0, false;
    }

    /** Queues data behind what is pending; aborts exactly when both together exceed the buffer. */
    method Send(data: seq<byte>) returns (ok: bool)
      requires Valid()
      modifies this`nextSend, this`nextSendValid, outbound
      ensures Valid()
      ensures closed ==> ok && Pending() == old(Pending())
      ensures !closed ==> (ok <==> |old(Pending())| + |data| <= outbound.Length)
      ensures !closed ==> Pending() == old(Pending()) + if ok then data else []
    {
      if closed {
        return true;
      }
      if nextSendValid + |data| > outbound.Length && nextSend > 0 {
        Compact();
      }
      if nextSendValid + |data| > outbound.Length {
        return false;
      }
      Append(data);
      ok := true;
    }

    method Append(data: seq<byte>)
      requires Valid() && nextSendValid + |data| <= outbound.Length
      modifies this`nextSendValid, outbound
      ensures Valid() && Pending() == old(Pending()) + data
    {
      ghost var before := Pending();
      forall i | 0 <= i < |data| {
        outbound[nextSendValid + i] := data[i];
      }
      assert outbound[nextSend..nextSendValid] == before;
      assert outbound[nextSendValid..nextSendValid + |data|] == data;
      nextSendValid := nextSendValid + |data|;
      Joined(outbound[..], nextSend, nextSendValid - |data|, nextSendValid);
    }

    /** Moves what is pending to the front of the buffer. */
    method Compact()
      requires Valid()
      modifies this`nextSend, this`nextSendValid, outbound
      ensures Valid() && nextSend == 0 && Pending() == old(Pending())
    {
      var pending := nextSendValid - nextSend;
      forall i | 0 <= i < pending {
        outbound[i] := outbound[nextSend + i];
      }
      nextSend := 0;
      nextSendValid := pending;
    }

    /** The send loop: what the kernel takes, at once or in pieces, is the front of what was pending. */
    method Flush(outcomes: seq<Outcome>) returns (taken: seq<byte>)
      requires Valid() && !closed
      modifies this`nextSend, this`nextSendValid, this`closed
      ensures Valid() && taken + Pending() == old(Pending())
      ensures |taken| == TakenOf(outcomes, |old(Pending())|) && (closed <==> Closes(outcomes, |old(Pending())|))
    {
      taken := [];
      var i := 0;
      ghost var n := |Pending()|;
      assert outcomes[0..] == outcomes;
      while !closed && nextSend < nextSendValid && i < |outcomes|
        invariant Valid() && 0 <= i <= |outcomes| && nextSendValid == old(nextSendValid)
        invariant taken + outbound[nextSend..nextSendValid] == old(Pending())
        invariant closed ==> |taken| == TakenOf(outcomes, n) && Closes(outcomes, n)
        invariant !closed ==> |taken| + TakenOf(outcomes[i..], nextSendValid - nextSend) == TakenOf(outcomes, n)
        invariant !closed ==> Closes(outcomes[i..], nextSendValid - nextSend) == Closes(outcomes, n)
      {
        assert outcomes[i..][1..] == outcomes[i + 1..];
        match outcomes[i] {
          case Took(k) =>
            if k == 0 {
              closed := true;
            } else {
              taken := Taking(k, taken);
            }
          case Interrupted =>
          case WouldBlock => break;
          case Failed => closed := true;
        }
        i := i + 1;
      }
      if nextSend == nextSendValid {
        nextSend := 0;
        nextSendValid := 0;
      }
    }

    /** The kernel takes up to `k` of the pending bytes. */
    method Taking(k: nat, before: seq<byte>) returns (taken: seq<byte>)
      requires Valid() && !closed
      modifies this`nextSend
      ensures Valid() && nextSend == old(nextSend) + Min(k, nextSendValid - old(nextSend))
      ensures taken + Pending() == before + old(Pending()) && |taken| == |before| + nextSend - old(nextSend)
    {
      var n := Min(k, nextSendValid - nextSend);
      ghost var rest := outbound[nextSend..nextSendValid];
      assert rest == outbound[nextSend..nextSend + n] + outbound[nextSend + n..nextSendValid];
      taken := before + outbound[nextSend..nextSend + n];
      nextSend := nextSend + n;
    }

    /** The kernel hands over a chunk that fits behind what was received. */
    method Arrive(chunk: seq<byte>)
      requires Valid() && nextRcvValid + |chunk| <= inbound.Length
      modifies this`nextRcvValid, inbound
      ensures Valid() && Received() == old(Received()) + chunk
    {
      forall i | 0 <= i < |chunk| {
        inbound[nextRcvValid + i] := chunk[i];
      }
      nextRcvValid := nextRcvValid + |chunk|;
    }

    /** Cuts the complete frames off the receive buffer and moves the rest to its front. */
    method TakeFrames(n: nat) returns (frames: seq<seq<byte>>)
      requires Valid() && n > 0
      modifies this`nextRcvValid, inbound
      ensures Valid() && frames == Frames(old(Received()), n) && Received() == Left(old(Received()), n)
    {
      ghost var bs := Received();
      frames := [];
      if nextRcvValid >= n {
        var i := 0;
        while i + n <= nextRcvValid
          invariant 0 <= i <= nextRcvValid && inbound[..nextRcvValid] == bs
          invariant frames + Frames(bs[i..], n) == Frames(bs, n) && Left(bs[i..], n) == Left(bs, n)
        {
          frames := frames + [inbound[i..i + n]];
          assert bs[i..][..n] == inbound[i..i + n] && bs[i..][n..] == bs[i + n..];
          i := i + n;
        }
        assert bs[i..] == Left(bs, n);
        forall k | 0 <= k < nextRcvValid - i {
          inbound[k] := inbound[i + k];
        }
        nextRcvValid := nextRcvValid - i;
        assert inbound[..nextRcvValid] == bs[i..];
      }
    }
  }
}
