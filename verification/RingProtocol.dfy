/**
  The ring queue under every interleaving of the producer's and the consumer's atomic steps. The consumer
  is the market data publisher, which reads each element twice: once before it gives the slot back, and
  once more, for the snapshot synthesizer, after it has.
*/
module RingProtocol {
  import opened Types
  import opened LFQueues

  /** A slot is torn while its element is being overwritten. */
  datatype Cell<T> = Torn | Full(value: T)

  datatype Producer<T> = Idle | Claimed(v: T) | Writing(v: T) | Written | Advanced

  datatype Reader = Looking | Reading(at: nat) | Sent(at: nat) | Moved(at: nat) | Released(at: nat)

  /**
    `sent` are the elements written so far; `inc` and `fwd` are the numbered cells that the consumer has
    sent on the incremental socket and forwarded to the synthesizer.
  */
  datatype Ring<T> = Ring(
    store: seq<Cell<T>>, w: nat, r: nat, num: nat, prod: Producer<T>, cons: Reader,
    sent: seq<T>, inc: seq<(nat, Cell<T>)>, fwd: seq<(nat, Cell<T>)>, seqNum: nat)

  datatype Event<T> =
    | Claim(v: T) | Smear | Fill | AdvanceWrite | CountUp
    | Look | ReadEarly | AdvanceRead | CountDown | CopyLate

  function Empty<T>(n: nat): Ring<T> {
    Ring(seq(n, _ => Torn), 0, 0, 0, Idle, Looking, [], [], [], 1)
  }

  /** Writes start only while fewer than `limit` elements are queued; the queue itself does not check. */
  predicate Enabled<T>(limit: nat, q: Ring<T>, e: Event<T>) {
    match e
    case Claim(_) => q.prod.Idle? && q.num < limit
    case Smear => q.prod.Claimed? && q.w < |q.store|
    case Fill => q.prod.Writing? && q.w < |q.store|
    case AdvanceWrite => q.prod.Written? && |q.store| > 0
    case CountUp => q.prod.Advanced?
    case Look => q.cons.Looking? && q.num > 0
    case ReadEarly => q.cons.Reading? && q.cons.at < |q.store|
    case AdvanceRead => q.cons.Sent? && |q.store| > 0
    case CountDown => q.cons.Moved?
    case CopyLate => q.cons.Released? && q.cons.at < |q.store|
  }

  function After<T>(limit: nat, q: Ring<T>, e: Event<T>): Ring<T>
    requires Enabled(limit, q, e)
  {
    match e
    case Claim(v) => q.(prod := Claimed(v))
    case Smear => q.(store := q.store[q.w := Torn], prod := Writing(q.prod.v))
    case Fill => q.(store := q.store[q.w := Full(q.prod.v)], prod := Written, sent := q.sent + [q.prod.v])
    case AdvanceWrite => q.(w := (q.w + 1) % |q.store|, prod := Advanced)
    case CountUp => q.(num := q.num + 1, prod := Idle)
    case Look => q.(cons := Reading(q.r))
    case ReadEarly => q.(inc := q.inc + [(q.seqNum, q.store[q.cons.at])], cons := Sent(q.cons.at))
    case AdvanceRead => q.(r := (q.r + 1) % |q.store|, cons := Moved(q.cons.at))
    case CountDown => q.(num := if q.num > 0 then q.num - 1 else 0, cons := Released(q.cons.at))
    case CopyLate =>
      q.(fwd := q.fwd + [(q.seqNum, q.store[q.cons.at])], seqNum := q.seqNum + 1, cons := Looking)
  }

  // ---------------------------------------------------------------- slots

  /** The slot of the i-th element ever written. */
  function SlotOf(i: nat, n: nat): (k: nat)
    requires n > 0
    ensures k < n
  {
    if i == 0 then 0 else Lap(SlotOf(i - 1, n) + 1, n)
  }

  lemma {:induction false} SlotAhead(i: nat, d: nat, n: nat)
    requires d < n
    ensures SlotOf(i + d, n) == Lap(SlotOf(i, n) + d, n)
  {
    if d > 0 {
      SlotAhead(i, d - 1, n);
    }
  }

  lemma {:induction false} SlotsApart(i: nat, j: nat, n: nat)
    requires i < j < i + n
    ensures SlotOf(i, n) != SlotOf(j, n)
  {
    SlotAhead(i, j - i, n);
  }

  // ---------------------------------------------------------------- invariant

  /** Elements whose late copy is done, slots given back by index, and elements counted out. */
  function Done<T>(q: Ring<T>): nat {
    |q.fwd|
  }

  function Passed<T>(q: Ring<T>): nat {
    Done(q) + if q.cons.Moved? || q.cons.Released? then 1 else 0
  }

  function CountedOut<T>(q: Ring<T>): nat {
    Done(q) + if q.cons.Released? then 1 else 0
  }

  function EarlyRead<T>(q: Ring<T>): nat {
    Done(q) + if q.cons.Sent? || q.cons.Moved? || q.cons.Released? then 1 else 0
  }

  /** Elements whose slot the write index has passed, and elements counted in. */
  function WritePassed<T>(q: Ring<T>): int {
    |q.sent| - if q.prod.Written? then 1 else 0
  }

  function CountedIn<T>(q: Ring<T>): int {
    |q.sent| - if q.prod.Written? || q.prod.Advanced? then 1 else 0
  }

  /** The oldest element whose slot must not be overwritten. */
  function Oldest<T>(limit: nat, q: Ring<T>): nat {
    if limit < |q.store| then Done(q) else CountedOut(q)
  }

  ghost predicate Indices<T>(q: Ring<T>) {
    && |q.store| > 0 && q.seqNum == Done(q) + 1
    && WritePassed(q) >= 0 && q.w == SlotOf(WritePassed(q), |q.store|)
    && q.r == SlotOf(Passed(q), |q.store|)
    && q.num == CountedIn(q) - CountedOut(q)
    && (!q.cons.Looking? ==> q.cons.at == SlotOf(Done(q), |q.store|) && CountedIn(q) > Done(q))
  }

  ghost predicate Room<T>(limit: nat, q: Ring<T>) {
    && |q.sent| - CountedOut(q) <= limit
    && (q.prod.Claimed? || q.prod.Writing? ==> |q.sent| - CountedOut(q) < limit)
  }

  /** Every element still needed stands in its slot, whole. */
  ghost predicate Kept<T>(limit: nat, q: Ring<T>)
    requires |q.store| > 0
  {
    forall i | Oldest(limit, q) <= i < |q.sent| :: q.store[SlotOf(i, |q.store|)] == Full(q.sent[i])
  }

  ghost predicate Copies<T>(q: Ring<T>, cs: seq<(nat, Cell<T>)>, n: nat) {
    |cs| == n <= |q.sent| && forall i | 0 <= i < n :: cs[i] == (i + 1, Full(q.sent[i]))
  }

  ghost predicate Inv<T>(limit: nat, q: Ring<T>) {
    && Indices(q) && Room(limit, q) && Kept(limit, q)
    && Copies(q, q.inc, EarlyRead(q))
    && (limit < |q.store| ==> Copies(q, q.fwd, Done(q)))
  }

  /** The slot being overwritten holds nothing that is still needed. */
  lemma {:induction false} FreshSlot<T>(limit: nat, q: Ring<T>, i: nat)
    requires Indices(q) && Room(limit, q) && limit <= |q.store| && (q.prod.Claimed? || q.prod.Writing?)
    requires Oldest(limit, q) <= i < |q.sent|
    ensures SlotOf(i, |q.store|) != q.w
  {
    SlotsApart(i, |q.sent|, |q.store|);
  }

  predicate ByProducer<T>(e: Event<T>) {
    e.Claim? || e.Smear? || e.Fill? || e.AdvanceWrite? || e.CountUp?
  }

  lemma {:induction false} ProducerIndices<T>(limit: nat, q: Ring<T>, e: Event<T>)
    requires Indices(q) && Room(limit, q) && Enabled(limit, q, e) && ByProducer(e)
    ensures var q' := After(limit, q, e); Indices(q') && Room(limit, q') && |q'.store| == |q.store|
  {
    if e.AdvanceWrite? {
      NextIndex(q.w, |q.store|);
    }
  }

  lemma {:induction false} ConsumerIndices<T>(limit: nat, q: Ring<T>, e: Event<T>)
    requires Indices(q) && Room(limit, q) && Enabled(limit, q, e) && !ByProducer(e)
    ensures var q' := After(limit, q, e); Indices(q') && Room(limit, q') && |q'.store| == |q.store|
  {
    if e.AdvanceRead? {
      NextIndex(q.r, |q.store|);
    }
  }

  lemma {:induction false} ProducerKept<T>(limit: nat, q: Ring<T>, e: Event<T>)
    requires Indices(q) && Room(limit, q) && Kept(limit, q) && limit <= |q.store| && Enabled(limit, q, e)
             && ByProducer(e)
    ensures Kept(limit, After(limit, q, e))
  {
    var q' := After(limit, q, e);
    forall i | Oldest(limit, q') <= i < |q'.sent| ensures q'.store[SlotOf(i, |q.store|)] == Full(q'.sent[i]) {
      if (e.Smear? || e.Fill?) && i < |q.sent| {
        FreshSlot(limit, q, i);
      }
    }
  }

  lemma {:induction false} ConsumerCopies<T>(limit: nat, q: Ring<T>, e: Event<T>)
    requires Inv(limit, q) && Enabled(limit, q, e) && !ByProducer(e)
    ensures var q' := After(limit, q, e);
            Copies(q', q'.inc, EarlyRead(q')) && (limit < |q.store| ==> Copies(q', q'.fwd, Done(q')))
  {
  }

  lemma {:induction false} CopiesStay<T>(q: Ring<T>, q': Ring<T>, cs: seq<(nat, Cell<T>)>, n: nat)
    requires Copies(q, cs, n) && q.sent <= q'.sent
    ensures Copies(q', cs, n)
  {
  }

  lemma {:induction false} ProducerKeepsInv<T>(limit: nat, q: Ring<T>, e: Event<T>)
    requires Inv(limit, q) && limit <= |q.store| && Enabled(limit, q, e) && ByProducer(e)
    ensures Inv(limit, After(limit, q, e)) && |After(limit, q, e).store| == |q.store|
  {
    var q' := After(limit, q, e);
    ProducerIndices(limit, q, e);
    ProducerKept(limit, q, e);
    assert q'.inc == q.inc && q'.fwd == q.fwd && q'.cons == q.cons && q.sent <= q'.sent;
    hide Indices, Room, Kept, After, Enabled;
    CopiesStay(q, q', q.inc, EarlyRead(q));
    if limit < |q.store| {
      CopiesStay(q, q', q.fwd, Done(q));
    }
    hide Copies;
  }

  lemma {:induction false} ConsumerKeepsInv<T>(limit: nat, q: Ring<T>, e: Event<T>)
    requires Inv(limit, q) && limit <= |q.store| && Enabled(limit, q, e) && !ByProducer(e)
    ensures Inv(limit, After(limit, q, e)) && |After(limit, q, e).store| == |q.store|
  {
    var q' := After(limit, q, e);
    ConsumerIndices(limit, q, e);
    ConsumerCopies(limit, q, e);
    assert q'.store == q.store && q'.sent == q.sent && Oldest(limit, q') >= Oldest(limit, q);
    hide Indices, Room, Copies, After, Enabled, Oldest;
  }

  lemma {:induction false} EmptyInv<T>(n: nat, limit: nat)
    requires n > 0
    ensures Inv<T>(limit, Empty(n))
  {
  }

  // ---------------------------------------------------------------- every run

  function Exec<T>(n: nat, limit: nat, es: seq<Event<T>>): Option<Ring<T>> {
    if es == [] then Some(Empty(n))
    else
      match Exec(n, limit, es[..|es| - 1])
      case None => None
      case Some(q) => if Enabled(limit, q, es[|es| - 1]) then Some(After(limit, q, es[|es| - 1])) else None
  }

  lemma {:induction false} InvHolds<T>(n: nat, limit: nat, es: seq<Event<T>>)
    requires 0 < n && limit <= n && Exec(n, limit, es).Some?
    ensures Inv(limit, Exec(n, limit, es).value) && |Exec(n, limit, es).value.store| == n
  {
    if es == [] {
      EmptyInv<T>(n, limit);
    } else {
      var before, e := es[..|es| - 1], es[|es| - 1];
      InvHolds(n, limit, before);
      var q := Exec(n, limit, before).value;
      hide Inv;
      if ByProducer(e) {
        ProducerKeepsInv(limit, q, e);
      } else {
        ConsumerKeepsInv(limit, q, e);
      }
    }
  }

  /**
    If writes start only when fewer than the capacity are queued, the consumer's first read of every element
    is that element, whole, in order, whatever the interleaving; and the count is never zero when it is lowered.
  */
  lemma {:induction false} ReadsWhatWasWritten<T>(n: nat, limit: nat, es: seq<Event<T>>)
    requires 0 < n && limit <= n && Exec(n, limit, es).Some?
    ensures var q := Exec(n, limit, es).value;
            && |q.inc| <= |q.sent|
            && (forall i | 0 <= i < |q.inc| :: q.inc[i] == (i + 1, Full(q.sent[i])))
            && (q.cons.Moved? ==> q.num > 0)
  {
    InvHolds(n, limit, es);
  }

  /** With one slot kept spare the late copy is the same message: both feeds carry the same numbered updates. */
  lemma {:induction false} FeedsCarryTheSame<T>(n: nat, limit: nat, es: seq<Event<T>>)
    requires limit < n && Exec(n, limit, es).Some?
    ensures var q := Exec(n, limit, es).value;
            |q.fwd| <= |q.inc| <= |q.fwd| + 1 && q.fwd == q.inc[..|q.fwd|]
  {
    InvHolds(n, limit, es);
    var q := Exec(n, limit, es).value;
    assert forall i | 0 <= i < |q.fwd| :: q.fwd[i] == q.inc[i];
  }

  // ---------------------------------------------------------------- without the spare slot

  /** One more event at the end of a run. */
  lemma {:induction false} Go(n: nat, limit: nat, es: seq<Event<int>>, q: Ring<int>, e: Event<int>)
      returns (es': seq<Event<int>>, q': Ring<int>)
    requires Exec(n, limit, es) == Some(q) && Enabled(limit, q, e)
    ensures Exec(n, limit, es') == Some(q') && q' == After(limit, q, e)
  {
    es', q' := es + [e], After(limit, q, e);
    assert es'[..|es|] == es;
  }

  /** `k` elements written, 0 to k - 1, and none read. */
  ghost predicate Loaded(q: Ring<int>, k: nat) {
    && q.prod.Idle? && q.cons.Looking? && q.inc == [] && q.fwd == []
    && |q.sent| == k && forall i | 0 <= i < k :: q.sent[i] == i
  }

  lemma {:induction false} Load(n: nat, limit: nat, k: nat) returns (es: seq<Event<int>>, q: Ring<int>)
    requires 0 < n == limit && k <= n
    ensures Exec(n, limit, es) == Some(q) && Loaded(q, k)
  {
    if k == 0 {
      es, q := [], Empty(n);
    } else {
      es, q := Load(n, limit, k - 1);
      InvHolds(n, limit, es);
      hide Exec, SlotOf, Kept;
      es, q := Go(n, limit, es, q, Claim(k - 1));
      es, q := Go(n, limit, es, q, Smear);
      es, q := Go(n, limit, es, q, Fill);
      es, q := Go(n, limit, es, q, AdvanceWrite);
      es, q := Go(n, limit, es, q, CountUp);
    }
  }

  /** The consumer has given back slot 0 of a full ring, but not yet copied it. */
  ghost predicate GivenBack(q: Ring<int>, n: nat) {
    && q.prod.Idle? && q.cons == Released(0) && q.inc == [(1, Full(0))] && q.fwd == []
    && q.w == 0 && q.num < n == |q.store| && q.seqNum == 1
  }

  lemma {:induction false} GiveBack(n: nat, limit: nat) returns (es: seq<Event<int>>, q: Ring<int>)
    requires 0 < n == limit
    ensures Exec(n, limit, es) == Some(q) && GivenBack(q, n)
  {
    es, q := Load(n, limit, n);
    InvHolds(n, limit, es);
    FullRing(q, n);
    hide Exec, Inv;
    es, q := Go(n, limit, es, q, Look);
    es, q := Go(n, limit, es, q, ReadEarly);
    es, q := Go(n, limit, es, q, AdvanceRead);
    es, q := Go(n, limit, es, q, CountDown);
  }

  lemma {:induction false} FullRing(q: Ring<int>, n: nat)
    requires n > 0 && |q.store| == n && Inv(n, q) && Loaded(q, n)
    ensures q.w == 0 && q.r == 0 && q.num == n && q.seqNum == 1 && q.store[0] == Full(0)
  {
    SlotLap(n);
    assert SlotOf(0, n) == 0;
  }

  lemma {:induction false} SlotLap(n: nat)
    requires n > 0
    ensures SlotOf(n, n) == 0
  {
    SlotAhead(0, n - 1, n);
  }

  /** A run in which the synthesizer is given another update under the number the public saw. */
  ghost predicate Differs(n: nat, limit: nat, es: seq<Event<int>>) {
    && Exec(n, limit, es).Some?
    && Exec(n, limit, es).value.inc == [(1, Full(0))] && Exec(n, limit, es).value.fwd == [(1, Full(n as int))]
  }

  /** Without the spare slot the late copy can be another message, whatever the capacity. */
  lemma {:induction false} SpareSlotNeeded(n: nat)
    requires n > 0
    ensures exists es :: Differs(n, n, es)
  {
    var es, q := GiveBack(n, n);
    hide Exec;
    es, q := Go(n, n, es, q, Claim(n));
    es, q := Go(n, n, es, q, Smear);
    es, q := Go(n, n, es, q, Fill);
    es, q := Go(n, n, es, q, CopyLate);
    assert Differs(n, n, es);
  }
}
