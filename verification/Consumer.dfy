/**
  The trading client's market data consumer: gap detection on the incremental stream and recovery from
  a queued snapshot. `Deliver` and `CheckSync` say what one message does to the consumer's state; the
  class does the same work with loops over its two ordered queues.
*/
module Consumer {
  import opened Types

  /** Queued messages by sequence number. */
  type Queue = map<nat, Update>

  /** `out` is everything handed to the trade engine so far. */
  datatype State = State(recovering: bool, next: nat, snap: Queue, inc: Queue, out: seq<Update>)

  const INITIAL: State := State(false, 1, map[], map[], [])

  predicate Marker(u: Update) {
    u.SnapshotStart? || u.SnapshotEnd?
  }

  /** The messages numbered from `a` up to `b`, snapshot markers left out. */
  function Payload(q: Queue, a: nat, b: nat): seq<Update>
    decreases b
  {
    if b <= a then []
    else Payload(q, a, b - 1) + if b - 1 in q && !Marker(q[b - 1]) then [q[b - 1]] else []
  }

  lemma {:induction false} NoPayload(q: Queue)
    ensures Payload(q, 0, 0) == []
  {
  }

  lemma {:induction false} PayloadNext(q: Queue, a: nat, b: nat)
    requires a <= b && b in q
    ensures Payload(q, a, b + 1) == Payload(q, a, b) + if Marker(q[b]) then [] else [q[b]]
  {
  }

  /** The keys are 0, 1, ..., n - 1. */
  ghost predicate Contiguous(q: Queue) {
    forall k: nat :: k in q <==> k < |q|
  }

  ghost function KeysFrom(q: Queue, a: nat): set<nat> {
    set k | k in q && k >= a
  }

  /** The first number from `a` on that is not queued. */
  ghost function RunEnd(q: Queue, a: nat): (b: nat)
    ensures a <= b && b !in q
    ensures forall k | a <= k < b :: k in q
    decreases |KeysFrom(q, a)|
  {
    if a !in q then a
    else
      assert a in KeysFrom(q, a) && KeysFrom(q, a + 1) == KeysFrom(q, a) - {a};
      RunEnd(q, a + 1)
  }

  ghost predicate NothingFrom(q: Queue, b: nat) {
    forall k | k in q :: k < b
  }

  /** A queued snapshot without gaps that begins with START. */
  ghost predicate Prefix(q: Queue) {
    q != map[] && Contiguous(q) && q[0].SnapshotStart?
  }

  /** What `checkSnapshotSync` makes of the queued messages. */
  ghost function CheckSync(s: State): State {
    if s.snap == map[] then s
    else if !Prefix(s.snap) then s.(snap := map[])
    else
      var last := s.snap[|s.snap| - 1];
      if !last.SnapshotEnd? then s
      else
        var b := RunEnd(s.inc, last.last + 1);
        if !NothingFrom(s.inc, b) then s.(next := b, snap := map[])
        else State(false, b, map[], map[], s.out + Payload(s.snap, 0, |s.snap|) + Payload(s.inc, last.last + 1, b))
  }

  /** The queues after one more message; a snapshot number seen before starts the snapshot queue anew. */
  ghost function Queued(s: State, isSnapshot: bool, k: nat, u: Update): State {
    if !isSnapshot then s.(inc := s.inc[k := u])
    else if k in s.snap then s.(snap := map[k := u])
    else s.(snap := s.snap[k := u])
  }

  /** A consumer that is not yet recovering starts with empty queues. */
  ghost function Recovering(s: State): State {
    if s.recovering then s else s.(recovering := true, snap := map[], inc := map[])
  }

  /** One message of a batch. */
  ghost function Deliver(s: State, isSnapshot: bool, k: nat, u: Update): State {
    if s.recovering || k != s.next then CheckSync(Queued(Recovering(s), isSnapshot, k, u))
    else if !isSnapshot then s.(next := s.next + 1, out := s.out + [u])
    else s
  }

  ghost function DeliverAll(s: State, isSnapshot: bool, batch: seq<(nat, Update)>): State {
    if batch == [] then s
    else
      var last := batch[|batch| - 1];
      Deliver(DeliverAll(s, isSnapshot, batch[..|batch| - 1]), isSnapshot, last.0, last.1)
  }

  /** A whole receive buffer; snapshot data is thrown away unless the consumer is recovering. */
  ghost function Receive(s: State, isSnapshot: bool, batch: seq<(nat, Update)>): State {
    if isSnapshot && !s.recovering then s else DeliverAll(s, isSnapshot, batch)
  }

  // ---------------------------------------------------------------- iteration order of an ordered map

  ghost predicate Ascending(ks: seq<nat>) {
    forall i, j | 0 <= i < j < |ks| :: ks[i] < ks[j]
  }

  method Least(s: set<nat>) returns (k: nat)
    requires s != {}
    ensures k in s && forall j | j in s :: k <= j
  {
    k :| k in s;
    var rest := s;
    while rest != {}
      invariant rest <= s && k in s
      invariant forall j | j in s && j !in rest :: k <= j
      decreases |rest|
    {
      var j :| j in rest;
      rest := rest - {j};
      k := if j < k then j else k;
    }
  }

  lemma {:induction false} AscendingNone()
    ensures Ascending([])
  {
  }

  lemma {:induction false} AscendingMore(ks: seq<nat>, k: nat)
    requires Ascending(ks) && forall i | 0 <= i < |ks| :: ks[i] < k
    ensures Ascending(ks + [k])
    ensures forall j :: j in ks + [k] <==> j in ks || j == k
  {
  }

  method AscendingKeys(q: Queue) returns (ks: seq<nat>)
    ensures Ascending(ks) && |ks| == |q|
    ensures forall k :: k in ks <==> k in q
  {
    hide Ascending;
    ks := [];
    assert Ascending([]) by { AscendingNone(); }
    var rest := q.Keys;
    while rest != {}
      invariant rest <= q.Keys && Ascending(ks) && |ks| + |rest| == |q|
      invariant forall k :: k in ks <==> k in q && k !in rest
      invariant forall i, k | 0 <= i < |ks| && k in rest :: ks[i] < k
      decreases |rest|
    {
      var k := Least(rest);
      AscendingMore(ks, k);
      ks := ks + [k];
      rest := rest - {k};
    }
  }

  /** Ascending keys that are their own positions. */
  lemma {:induction false} ContiguousKeys(q: Queue, ks: seq<nat>)
    requires Ascending(ks) && |ks| == |q| && (forall k :: k in ks <==> k in q)
    ensures Contiguous(q) <==> forall i | 0 <= i < |ks| :: ks[i] == i
  {
    if forall i | 0 <= i < |ks| :: ks[i] == i {
      forall k: nat ensures k in q <==> k < |q| {
        assert k < |q| ==> ks[k] == k;
      }
    }
    if Contiguous(q) {
      forall i | 0 <= i < |ks| ensures ks[i] == i {
        AtLeast(ks, i);
        AtMost(ks, i);
      }
    }
  }

  lemma {:induction false} AtLeast(ks: seq<nat>, i: nat)
    requires Ascending(ks) && i < |ks|
    ensures ks[i] >= i
  {
    if i > 0 {
      AtLeast(ks, i - 1);
    }
  }

  lemma {:induction false} AtMost(ks: seq<nat>, i: nat)
    requires Ascending(ks) && i < |ks| && forall k | k in ks :: k < |ks|
    ensures ks[i] <= i
    decreases |ks| - i
  {
    assert ks[i] in ks;
    if i + 1 < |ks| {
      AtMost(ks, i + 1);
    }
  }

  class MarketDataConsumer {
    var inRecovery: bool
    var nextExp: nat
    var snapshotQueued: Queue
    var incrementalQueued: Queue
    var incoming: seq<Update>

    ghost function View(): State
      reads this
    {
      State(inRecovery, nextExp, snapshotQueued, incrementalQueued, incoming)
    }

    constructor ()
      ensures View() == INITIAL
    {
      inRecovery, nextExp, snapshotQueued, incrementalQueued, incoming := false, 1, map[], map[], [];
    }

    method StartSnapshotSync()
      modifies this
      ensures View() == old(View()).(snap := map[], inc := map[])
    {
      snapshotQueued := map[];
      incrementalQueued := map[];
    }

    /** Whether the queued snapshot has no gaps, and its messages without markers. */
    method SnapshotEvents() returns (complete: bool, events: seq<Update>)
      requires snapshotQueued != map[]
      ensures complete <==> Contiguous(snapshotQueued)
      ensures complete ==> events == Payload(snapshotQueued, 0, |snapshotQueued|)
    {
      var ks := AscendingKeys(snapshotQueued);
      ContiguousKeys(snapshotQueued, ks);
      assert Payload(snapshotQueued, 0, 0) == [];
      hide Contiguous, Ascending, Payload;
      events := [];
      complete := true;
      var i := 0;
      while i < |ks|
        invariant 0 <= i <= |ks|
        invariant forall j | 0 <= j < i :: ks[j] == j
        invariant events == Payload(snapshotQueued, 0, i)
      {
        if ks[i] != i {
          return false, events;
        }
        assert ks[i] in ks;
        PayloadNext(snapshotQueued, 0, i);
        var u := snapshotQueued[ks[i]];
        if !u.SnapshotStart? && !u.SnapshotEnd? {
          events := events + [u];
        }
        i := i + 1;
      }
    }

    /** Walks the queued incrementals from `nextExp`, which it advances past the run found there. */
    method IncrementalEvents(a: nat) returns (complete: bool, events: seq<Update>)
      modifies this`nextExp
      ensures nextExp == RunEnd(incrementalQueued, a)
      ensures complete <==> NothingFrom(incrementalQueued, nextExp)
      ensures complete ==> events == Payload(incrementalQueued, a, nextExp)
    {
      var ks := AscendingKeys(incrementalQueued);
      assert Payload(incrementalQueued, a, a) == [];
      hide Payload;
      nextExp := a;
      events := [];
      var i := 0;
      while i < |ks|
        invariant 0 <= i <= |ks| && a <= nextExp
        invariant forall j | 0 <= j < i :: ks[j] < nextExp
        invariant forall k | a <= k < nextExp :: k in incrementalQueued
        invariant events == Payload(incrementalQueued, a, nextExp)
      {
        var k: nat := ks[i];
        assert k in ks;
        if k >= nextExp {
          if k != nextExp {
            assert nextExp !in ks by {
              assert forall j | i < j < |ks| :: ks[j] > ks[i];
            }
            RunEndIs(incrementalQueued, a, nextExp);
            return false, events;
          }
          PayloadNext(incrementalQueued, a, k);
          var u := incrementalQueued[k];
          if !u.SnapshotStart? && !u.SnapshotEnd? {
            events := events + [u];
          }
          nextExp := nextExp + 1;
        }
        i := i + 1;
      }
      assert forall k | k in incrementalQueued :: k in ks;
      RunEndIs(incrementalQueued, a, nextExp);
      complete := true;
    }

    /** The smallest queued snapshot message and the largest. */
    method FirstAndLast() returns (first: Update, last: Update)
      requires snapshotQueued != map[]
      ensures Contiguous(snapshotQueued) ==>
                first == snapshotQueued[0] && last == snapshotQueued[|snapshotQueued| - 1]
    {
      var ks := AscendingKeys(snapshotQueued);
      assert ks[0] in ks && ks[|ks| - 1] in ks;
      ContiguousKeys(snapshotQueued, ks);
      first := snapshotQueued[ks[0]];
      last := snapshotQueued[ks[|ks| - 1]];
    }

    method CheckSnapshotSync()
      modifies this
      ensures View() == CheckSync(old(View()))
    {
      hide Payload, RunEnd, NothingFrom, Contiguous;
      if snapshotQueued == map[] {
        return;
      }
      var first, last := FirstAndLast();
      if !first.SnapshotStart? {
        snapshotQueued := map[];
        return;
      }
      var haveSnapshot, finalEvents := SnapshotEvents();
      if !haveSnapshot {
        snapshotQueued := map[];
        return;
      }
      if !last.SnapshotEnd? {
        return;
      }
      var haveIncrementals, events := IncrementalEvents(last.last + 1);
      if !haveIncrementals {
        snapshotQueued := map[];
        return;
      }
      incoming := incoming + finalEvents + events;
      snapshotQueued := map[];
      incrementalQueued := map[];
      inRecovery := false;
    }

    method QueueMessage(isSnapshot: bool, k: nat, u: Update)
      modifies this
      ensures View() == CheckSync(Queued(old(View()), isSnapshot, k, u))
    {
      if isSnapshot {
        if k in snapshotQueued {
          snapshotQueued := map[];
        }
        snapshotQueued := snapshotQueued[k := u];
      } else {
        incrementalQueued := incrementalQueued[k := u];
      }
      hide CheckSync;
      CheckSnapshotSync();
    }

    /** All complete frames of one socket's receive buffer. */
    method RecvCallback(isSnapshot: bool, batch: seq<(nat, Update)>)
      modifies this
      ensures View() == Receive(old(View()), isSnapshot, batch)
      ensures isSnapshot && !old(inRecovery) ==> View() == old(View())
    {
      hide CheckSync, Queued;
      if isSnapshot && !inRecovery {
        return;
      }
      ghost var s := View();
      for i := 0 to |batch|
        invariant View() == DeliverAll(s, isSnapshot, batch[..i])
      {
        var (k, u) := batch[i];
        ghost var before := View();
        assert batch[..i + 1][..i] == batch[..i];
        var already := inRecovery;
        inRecovery := already || k != nextExp;
        if inRecovery {
          if !already {
            StartSnapshotSync();
          }
          QueueMessage(isSnapshot, k, u);
        } else if !isSnapshot {
          nextExp := nextExp + 1;
          incoming := incoming + [u];
        }
        assert View() == Deliver(before, isSnapshot, k, u);
      }
      assert batch[..|batch|] == batch;
    }
  }

  lemma {:induction false} RunEndIs(q: Queue, a: nat, b: nat)
    requires a <= b && b !in q && forall k | a <= k < b :: k in q
    ensures RunEnd(q, a) == b
  {
  }
}
