/**
  The single-producer, single-consumer ring between the exchange's threads, and the market data publisher
  that drains it. First as a class used by one thread, then under every interleaving of its atomic steps.
*/
module LFQueues {
  import opened Types
  import opened Feed
  import opened Snapshot

  /** A position at most one lap ahead, brought back into the ring. */
  function Lap(x: nat, n: nat): nat {
    if x < n then x else x - n
  }

  lemma {:induction false} NextIndex(i: nat, n: nat)
    requires i < n
    ensures (i + 1) % n == Lap(i + 1, n)
  {
  }

  /** A position anywhere along the laps, as an index into the ring. */
  function Pos(a: nat, n: nat): (k: nat)
    requires n > 0
    ensures k < n && (a < n ==> k == a)
  {
    a % n
  }

  lemma {:induction false} PosUnique(a: nat, n: nat, q: nat, r: nat)
    requires n > 0 && a == n * q + r && r < n
    ensures Pos(a, n) == r
  {
    var d: int := a / n - q;
    assert n * d == r - a % n;
    assert d >= 1 ==> n * d >= n;
    assert d <= -1 ==> n * d <= 0 - n;
  }

  /** Going round the ring from any position. */
  lemma {:induction false} PosAdd(a: nat, d: nat, n: nat)
    requires n > 0
    ensures Pos(a + d, n) == Pos(Pos(a, n) + d, n)
  {
    var q, r := a / n, a % n;
    var e, f := (r + d) / n, (r + d) % n;
    assert a + d == n * (q + e) + f;
    PosUnique(a + d, n, q + e, f);
  }

  lemma {:induction false} PosLap(a: nat, n: nat)
    requires n <= a < 2 * n
    ensures Pos(a, n) == a - n
  {
    PosUnique(a, n, 1, a - n);
  }

  lemma {:induction false} SamePos(a: nat, b: nat, n: nat)
    requires n > 0 && a <= b
    ensures Pos(a, n) == Pos(b, n) <==> Pos(b - a, n) == 0
  {
    hide Pos;
    var f, r := Pos(b - a, n), Pos(a, n);
    PosAdd(a, b - a, n);
    PosAdd(b - a, r, n);
    assert Pos(b, n) == Pos(f + r, n);
    if f + r >= n {
      PosLap(f + r, n);
    }
  }

  /** The next `n` elements as a reader going round the ring would see them. */
  ghost function Window<T>(s: seq<T>, first: nat, n: nat): (r: seq<T>)
    requires |s| > 0
    ensures |r| == n && forall i | 0 <= i < n :: r[i] == s[Pos(first + i, |s|)]
  {
    seq(n, i requires 0 <= i < n => s[Pos(first + i, |s|)])
  }

  /** The elements a whole number of laps before the end have been replaced. */
  ghost function Overwritten<T>(q: seq<T>, size: nat, x: T): (r: seq<T>)
    requires size > 0
    ensures |r| == |q| && (|q| < size ==> r == q)
    ensures forall i | 0 <= i < |q| :: r[i] == if Pos(|q| - i, size) == 0 then x else q[i]
  {
    seq(|q|, i requires 0 <= i < |q| => if Pos(|q| - i, size) == 0 then x else q[i])
  }

  /** What a write does to the window: it is last, and it replaces whatever stood a whole number of laps before it. */
  lemma {:induction false} WindowWrite<T>(s: seq<T>, first: nat, n: nat, x: T)
    requires |s| > 0
    ensures var w := Pos(first + n, |s|);
            Window(s[w := x], first, n + 1) == Overwritten(Window(s, first, n), |s|, x) + [x]
  {
    hide Pos;
    var w := Pos(first + n, |s|);
    var t := Window(s[w := x], first, n + 1);
    forall i | 0 <= i < n ensures t[i] == if Pos(n - i, |s|) == 0 then x else Window(s, first, n)[i] {
      SamePos(first + i, first + n, |s|);
    }
  }

  lemma {:induction false} WindowRead<T>(s: seq<T>, first: nat, n: nat)
    requires first < |s| && n > 0
    ensures Window(s, Pos(first + 1, |s|), n - 1) == Window(s, first, n)[1..]
    ensures Pos(Pos(first + 1, |s|) + (n - 1), |s|) == Pos(first + n, |s|)
  {
    hide Pos;
    PosAdd(first + 1, n - 1, |s|);
    var t, u := Window(s, Pos(first + 1, |s|), n - 1), Window(s, first, n);
    forall i | 0 <= i < n - 1 ensures t[i] == u[i + 1] {
      PosAdd(first + 1, i, |s|);
    }
  }

  class LFQueue<T> {
    const store: array<T>
    var nextWrite: nat
    var nextRead: nat
    var num: nat

    ghost predicate Valid()
      reads this
    {
      nextRead < store.Length && nextWrite == Pos(nextRead + num, store.Length)
    }

    /** The queued elements, oldest first. */
    ghost function Contents(): (s: seq<T>)
      requires Valid()
      reads this, store
      ensures |s| == num
    {
      Window(store[..], nextRead, num)
    }

    constructor (n: nat, default: T)
      requires n > 0
      ensures Valid() && fresh(store) && store.Length == n && Contents() == []
    {
      store := new T[n](_ => default);
      nextWrite, nextRead, num := 0, 0, 0;
    }

    /**
      `getNextToWriteTo`, the caller's write through it, and `updateWriteIndex`. Nothing checks for room: in a full
      queue the write replaces elements that have not been read.
    */
    method Write(x: T)
      requires Valid()
      modifies this, store
      ensures Valid() && Contents() == Overwritten(old(Contents()), store.Length, x) + [x]
      ensures old(num) < store.Length ==> Contents() == old(Contents()) + [x]
    {
      WindowWrite(store[..], nextRead, num, x);
      PosAdd(nextRead + num, 1, store.Length);
      store[nextWrite] := x;
      nextWrite := (nextWrite + 1) % store.Length;
      hide Pos, Overwritten;
      num := num + 1;
    }

    /** A pointer to the oldest element, if there is one. */
    method GetNextToRead() returns (at: Option<nat>)
      requires Valid()
      ensures at.None? <==> num == 0
      ensures at.Some? ==> at.value < store.Length && store[at.value] == Contents()[0]
    {
      at := if num > 0 then Some(nextRead) else None;
    }

    method UpdateReadIndex()
      requires Valid() && num != 0
      modifies this
      ensures Valid() && Contents() == old(Contents())[1..]
    {
      WindowRead(store[..], nextRead, num);
      nextRead := (nextRead + 1) % store.Length;
      hide Pos;
      num := num - 1;
    }
  }

  lemma {:induction false} NumberedMore(us: seq<Update>, k: nat, first: nat)
    requires k < |us|
    ensures Numbered(us[..k + 1], first) == Numbered(us[..k], first) + [(first + k, us[k])]
  {
  }

  /** The publisher's side of both feeds. */
  class MarketDataPublisher {
    var nextSeq: nat
    /** What went out on the incremental socket and to the snapshot synthesizer. */
    var incremental: seq<(nat, Update)>
    var forwarded: seq<(nat, Update)>

    constructor ()
      ensures nextSeq == 1 && incremental == [] && forwarded == []
    {
      nextSeq, incremental, forwarded := 1, [], [];
    }

    /** One pass of the run loop: every queued update is numbered and goes out on both feeds. */
    method Drain(q: LFQueue<Update>)
      requires q.Valid()
      modifies this, q
      ensures q.Valid() && q.Contents() == []
      ensures incremental == old(incremental) + Numbered(old(q.Contents()), old(nextSeq))
      ensures forwarded == old(forwarded) + Numbered(old(q.Contents()), old(nextSeq))
      ensures nextSeq == old(nextSeq) + |old(q.Contents())|
    {
      hide Numbered;
      ghost var us := q.Contents();
      ghost var done: nat := 0;
      assert us[..0] == [];
      NumberedNothing(nextSeq);
      while q.num != 0
        invariant q.Valid() && done <= |us| && q.Contents() == us[done..]
        invariant nextSeq == old(nextSeq) + done
        invariant incremental == old(incremental) + Numbered(us[..done], old(nextSeq))
        invariant forwarded == old(forwarded) + Numbered(us[..done], old(nextSeq))
        decreases q.num
      {
        var at := q.GetNextToRead();
        incremental := incremental + [(nextSeq, q.store[at.value])];
        q.UpdateReadIndex();
        forwarded := forwarded + [(nextSeq, q.store[at.value])];
        nextSeq := nextSeq + 1;
        NumberedMore(us, done, old(nextSeq));
        done := done + 1;
      }
      assert us[..done] == us;
    }
  }

  /**
    Publisher and synthesizer together: what the matching engine queued goes out on the incremental feed, and the
    synthesizer reads the same numbers in the same order, so its sequence assertion holds and its tables follow.
  */
  method Relay(q: LFQueue<Update>, pub: MarketDataPublisher, syn: SnapshotSynthesizer, ghost done: seq<Update>)
    requires q.Valid() && syn.Valid() && syn.Following(done) && syn.lastSeq == |done| && pub.nextSeq == |done| + 1
    requires GoodStream(EmptyBooks(syn.tickerOrders.Length0), done + q.Contents())
    requires Bounded(done + q.Contents(), syn.tickerOrders.Length0, syn.tickerOrders.Length1, syn.pool.store.Length)
    modifies q, pub, syn, syn.tickerOrders, syn.pool, syn.pool.store
    ensures var us := old(q.Contents());
            && q.Valid() && q.Contents() == [] && pub.nextSeq == |done| + |us| + 1
            && pub.incremental == old(pub.incremental) + Numbered(us, |done| + 1)
            && syn.Valid() && syn.lastSeq == |done| + |us| && syn.Following(done + us)
  {
    ghost var us := q.Contents();
    syn.Followed(done);
    hide GoodStream, Bounded, Numbered, SnapshotSynthesizer.Tables, FoldTables;
    var sent := |pub.forwarded|;
    pub.Drain(q);
    syn.Follow(pub.forwarded[sent..], done, us);
    assert (done + us)[..syn.lastSeq] == done + us;
  }
}
