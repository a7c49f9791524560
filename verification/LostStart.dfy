/**
  What a lost START does. Two cycles are sent, with one update in between; the END of the first and all of the second
  but its END are lost, and the consumer splices the two. Whether it then shows the right books depends on the update.
*/
module LostStarts {
  import opened Types
  import opened PriceTime
  import opened Feed
  import opened Snapshot
  import opened Consumer
  import opened Recovery

  const ONE: Limits := Limits(1, 2)
  const OPENED: Update := Add(1, 0, Buy, 100, 10, 1)
  const REDUCED: Update := Modify(1, 0, Buy, 100, 5, 1)
  const TRADED: Update := Trade(0, Sell, 100, 5)

  /** What is published between the two cycles, and the quantity the order has after it. */
  predicate Second(u: Update) {
    u == REDUCED || u == TRADED
  }

  function Later(u: Update): nat {
    if u == REDUCED then 5 else 10
  }

  ghost function Single(qty: nat): seq<PublicBook> {
    [Book([Order((), 1, Buy, 100, qty, 1)], [])]
  }

  ghost function SingleCycle(qty: nat, m: nat): seq<Update> {
    [SnapshotStart(m), Clear(0), Add(1, 0, Buy, 100, qty, 1), SnapshotEnd(m)]
  }

  lemma {:induction false} BooksOfTwo(u: Update)
    requires Second(u)
    ensures Fold(EmptyBooks(1), []) == EmptyBooks(1)
    ensures Fold(EmptyBooks(1), [OPENED]) == Single(10)
    ensures Fold(EmptyBooks(1), [OPENED, u]) == Single(Later(u))
  {
    FoldOne(EmptyBooks(1), [], OPENED);
    assert [] + [OPENED] == [OPENED];
    var b := Apply(EMPTY_BOOK, OPENED);
    assert b == Single(10)[0];
    FoldOne(EmptyBooks(1), [OPENED], u);
    assert [OPENED] + [u] == [OPENED, u];
    assert Apply(Single(10)[0], u) == Single(Later(u))[0];
  }

  lemma {:induction false} TablesOfTwo(u: Update)
    requires Second(u)
    ensures FoldTables(EmptyTables(1), [OPENED]) == [map[1 := Order((), 1, Buy, 100, 10, 1)]]
    ensures FoldTables(EmptyTables(1), [OPENED, u]) == [map[1 := Order((), 1, Buy, 100, Later(u), 1)]]
  {
    assert [OPENED][..0] == [] && [OPENED, u][..1] == [OPENED];
    assert FoldTables(EmptyTables(1), []) == EmptyTables(1);
    var ts: seq<Table> := [map[1 := Order((), 1, Buy, 100, 10, 1)]];
    assert FoldTables(EmptyTables(1), [OPENED]) == ts;
    assert ApplyTable(ts[0], u) == map[1 := Order((), 1, Buy, 100, Later(u), 1)];
    assert StepTables(ts, u) == [map[1 := Order((), 1, Buy, 100, Later(u), 1)]];
  }

  lemma {:induction false} CycleOfOne(qty: nat, m: nat)
    ensures Cycle([map[1 := Order((), 1, Buy, 100, qty, 1)]], 2, m) == SingleCycle(qty, m)
  {
    var t: Table := map[1 := Order((), 1, Buy, 100, qty, 1)];
    assert Listing(t, 0, 0) == [] && Listing(t, 0, 1) == [];
    assert Listing(t, 0, 2) == [Add(1, 0, Buy, 100, qty, 1)];
    assert Bodies([t], 2, 0) == [];
    assert Bodies([t], 2, 1) == [Clear(0), Add(1, 0, Buy, 100, qty, 1)];
  }

  /** A consumer that missed incremental 1, part way through the cycle sent after it. */
  ghost function Midway(u: Update, j: nat): Net
    requires j <= 4
  {
    Net([OPENED, u], 2, [1, 2], 0, State(true, 1, QueueOf(SingleCycle(10, 1), j), map[2 := u], []))
  }

  lemma {:induction false} MidwayCycles(u: Update)
    requires Second(u)
    ensures CycleAt(ONE, [OPENED, u], 1) == SingleCycle(10, 1)
    ensures CycleAt(ONE, [OPENED, u], 2) == SingleCycle(Later(u), 2)
  {
    assert [OPENED, u][..1] == [OPENED] && [OPENED, u][..2] == [OPENED, u];
    TablesOfTwo(u);
    CycleOfOne(10, 1);
    CycleOfOne(Later(u), 2);
  }

  lemma {:induction false} ExecMore(lim: Limits, es: seq<Event>, e: Event)
    requires Exec(lim, es).Some? && Enabled(lim, Exec(lim, es).value, e)
    ensures Exec(lim, es + [e]) == Some(After(lim, Exec(lim, es).value, e))
  {
    hide Enabled, After;
    assert (es + [e])[..|es|] == es;
  }

  function Outage(u: Update): seq<Event> {
    [Publish(OPENED), Sync, SendCycle, Publish(u), Sync, SendCycle, Incremental(2)]
  }

  lemma {:induction false} FirstSteps(u: Update)
    requires Second(u)
    ensures StepOk(BooksAt(ONE, [], 0), OPENED)
    ensures StepOk(BooksAt(ONE, [OPENED], 1), u)
  {
    BooksOfTwo(u);
    assert [OPENED][..1] == [OPENED];
    assert Find(Single(10)[0].bids, 1) == 0;
  }

  lemma {:induction false} ExecTo(lim: Limits, es: seq<Event>, s: Net, e: Event, s': Net)
    requires Exec(lim, es) == Some(s) && Enabled(lim, s, e) && After(lim, s, e) == s'
    ensures Exec(lim, es + [e]) == Some(s')
  {
    ExecMore(lim, es, e);
  }

  /** One update is published, read and followed by a cycle. */
  lemma {:induction false} PublishAndSend(es: seq<Event>, s: Net, u: Update) returns (es': seq<Event>)
    requires Exec(ONE, es) == Some(s) && s.synced == |s.published|
    requires StepOk(BooksAt(ONE, s.published, |s.published|), u) && (u.Add? ==> u.id < 2)
    ensures es' == es + [Publish(u), Sync, SendCycle]
    ensures Exec(ONE, es') == Some(s.(published := s.published + [u], synced := s.synced + 1,
              cycles := s.cycles + [s.synced + 1]))
  {
    hide StepOk, BooksAt, Exec;
    var s1 := s.(published := s.published + [u]);
    ExecTo(ONE, es, s, Publish(u), s1);
    ExecTo(ONE, es + [Publish(u)], s1, Sync, s1.(synced := s.synced + 1));
    es' := es + [Publish(u)] + [Sync] + [SendCycle];
    ExecTo(ONE, es + [Publish(u)] + [Sync], s1.(synced := s.synced + 1), SendCycle,
           s1.(synced := s.synced + 1, cycles := s.cycles + [s.synced + 1]));
    assert es' == es + [Publish(u), Sync, SendCycle];
  }

  lemma {:induction false} OutageReached(u: Update)
    requires Second(u)
    ensures Exec(ONE, Outage(u)) == Some(Midway(u, 0))
  {
    FirstSteps(u);
    ExecNothing();
    MissedOne(u);
    hide StepOk, BooksAt, Exec, Enabled, After, Midway;
    assert [] + [OPENED] == [OPENED] && [OPENED] + [u] == [OPENED, u] && [] + [1] == [1] && [1] + [2] == [1, 2];
    var es := PublishAndSend([], START, OPENED);
    es := PublishAndSend(es, Net([OPENED], 1, [1], 0, INITIAL), u);
    ExecTo(ONE, es, Net([OPENED, u], 2, [1, 2], 0, INITIAL), Incremental(2), Midway(u, 0));
    assert es + [Incremental(2)] == Outage(u);
  }

  /** The second incremental arrives without the first. */
  lemma {:induction false} MissedOne(u: Update)
    ensures var s := Net([OPENED, u], 2, [1, 2], 0, INITIAL);
            Enabled(ONE, s, Incremental(2)) && After(ONE, s, Incremental(2)) == Midway(u, 0)
  {
  }

  lemma {:induction false} ExecNothing()
    ensures Exec(ONE, []) == Some(START)
  {
  }

  /** The old cycle up to its END. */
  lemma {:induction false} OldCycle(u: Update, j: nat)
    requires Second(u) && j < 3
    ensures Enabled(ONE, Midway(u, j), SnapshotMsg(0, j))
            && After(ONE, Midway(u, j), SnapshotMsg(0, j)) == Midway(u, j + 1)
  {
    MidwayCycles(u);
    hide CycleAt, QueueOf, Deliver;
    DeliveredPart(Midway(u, j).consumer, SingleCycle(10, 1), j);
  }

  /** One more message that does not end the cycle is queued. */
  lemma {:induction false} DeliveredPart(t: State, us: seq<Update>, j: nat)
    requires j < |us| && t.recovering && t.snap == QueueOf(us, j) && us[0].SnapshotStart? && !us[j].SnapshotEnd?
    ensures Deliver(t, true, j, us[j]) == t.(snap := QueueOf(us, j + 1))
  {
    QueueOfAt(us, j);
    assert QueueOf(us, j + 1) == QueueOf(us, j)[j := us[j]];
    hide QueueOf, CheckSync, Contiguous;
    QueueOfPrefix(us, j + 1);
    NotYetWhole(t.(snap := QueueOf(us, j + 1)));
  }

  lemma {:induction false} NotYetWhole(t: State)
    requires Prefix(t.snap) && !t.snap[|t.snap| - 1].SnapshotEnd?
    ensures CheckSync(t) == t
  {
  }

  lemma {:induction false} SplicedPayload(q: Queue)
    requires 0 in q && q[0].SnapshotStart? && 1 in q && q[1] == Clear(0) && 2 in q && q[2] == OPENED
    requires 3 in q && q[3].SnapshotEnd?
    ensures Payload(q, 0, 4) == [Clear(0), OPENED]
  {
    assert Payload(q, 0, 0) == [] && Payload(q, 0, 1) == [] && Payload(q, 0, 2) == [Clear(0)];
    assert Payload(q, 0, 3) == [Clear(0), OPENED];
  }

  /** The END of the new cycle, standing in the queue where the old cycle's END would have stood. */
  lemma {:induction false} NewEnd(u: Update)
    requires Second(u)
    ensures Enabled(ONE, Midway(u, 3), SnapshotMsg(1, 3))
    ensures var r := After(ONE, Midway(u, 3), SnapshotMsg(1, 3)).consumer;
            !r.recovering && r.next == 3 && r.out == [Clear(0), Add(1, 0, Buy, 100, 10, 1)]
  {
    MidwayCycles(u);
    hide CycleAt, QueueOf, CheckSync, Complete;
    SplicedQueue([SnapshotStart(1), Clear(0), Add(1, 0, Buy, 100, 10, 1), SnapshotEnd(2)]);
    var t := Midway(u, 3).consumer;
    var q := t.snap[3 := SnapshotEnd(2)];
    assert Deliver(t, true, 3, SnapshotEnd(2)) == CheckSync(t.(snap := q));
    SplicedAccepted(t.(snap := q), u);
  }

  lemma {:induction false} SplicedAccepted(t: State, u: Update)
    requires Complete(t.snap) && |t.snap| == 4 && t.inc == map[2 := u] && t.out == []
    requires t.snap[0].SnapshotStart? && t.snap[1] == Clear(0) && t.snap[2] == OPENED && t.snap[3] == SnapshotEnd(2)
    ensures CheckSync(t) == State(false, 3, map[], map[], [Clear(0), OPENED])
  {
    SplicedPayload(t.snap);
    RunEndIs(t.inc, 3, 3);
    assert Payload(t.inc, 3, 3) == [];
    hide Payload, RunEnd, Contiguous;
  }

  /** A possible run after which a caught-up consumer does not show the exchange's books. */
  ghost predicate Diverges(lim: Limits, es: seq<Event>) {
    && Exec(lim, es).Some?
    && var s := Exec(lim, es).value;
       !s.consumer.recovering && s.consumer.next == |s.published| + 1 && !Shows(lim, s, |s.published|)
  }

  /** A run whose markers disagree and whose consumer shows the right books all the same. */
  ghost predicate RightAnyway(lim: Limits, es: seq<Event>) {
    && Exec(lim, es).Some? && !AgreeingRun(lim, es)
    && var s := Exec(lim, es).value;
       !s.consumer.recovering && s.consumer.next == |s.published| + 1 && Shows(lim, s, |s.published|)
  }

  /**
    The markers must agree: here the END of one cycle and the START of the next are lost, the consumer
    splices the two cycles, leaves recovery, and, caught up, shows an order at its old quantity.
  */
  lemma {:induction false} LostStartDiverges()
    ensures exists es :: Diverges(ONE, es)
  {
    NewEnd(REDUCED);
    StillPublished(REDUCED);
    SplicedBook(REDUCED);
    var es := SplicedReached(REDUCED);
    hide Exec, Midway, Fold, After, Enabled;
    var s := Exec(ONE, es).value;
    assert s.published[..2] == [OPENED, REDUCED];
    assert Single(10)[0].bids[0].qty != Single(5)[0].bids[0].qty;
    assert !Shows(ONE, s, 2);
    assert Diverges(ONE, es);
  }

  /** Agreement is not necessary: if only a trade was published in between, both cycles list the same orders. */
  lemma {:induction false} DisagreeingButRight()
    ensures exists es :: RightAnyway(ONE, es)
  {
    NewEnd(TRADED);
    StillPublished(TRADED);
    SplicedBook(TRADED);
    var es := SplicedReached(TRADED);
    SplicedDisagrees(TRADED, es);
    hide Exec, Midway, Fold, After, Enabled, AgreeingRun;
    var s := Exec(ONE, es).value;
    assert s.published[..2] == [OPENED, TRADED];
    assert Shows(ONE, s, 2);
    assert RightAnyway(ONE, es);
  }

  lemma {:induction false} SplicedDisagrees(u: Update, es: seq<Event>)
    requires Second(u) && es != [] && es[|es| - 1] == SnapshotMsg(1, 3) && Exec(ONE, es).Some?
    requires Exec(ONE, es[..|es| - 1]) == Some(Midway(u, 3))
    ensures !AgreeingRun(ONE, es)
  {
    MidwayCycles(u);
    var us := [SnapshotStart(1), Clear(0), Add(1, 0, Buy, 100, 10, 1), SnapshotEnd(2)];
    SplicedQueue(us);
    hide CycleAt, Exec;
    assert !Agreeing(ONE, Midway(u, 3), SnapshotMsg(1, 3));
  }

  /** The queue with the last message replaced by the END of the newer cycle. */
  lemma {:induction false} SplicedQueue(us: seq<Update>)
    requires us == [SnapshotStart(1), Clear(0), Add(1, 0, Buy, 100, 10, 1), SnapshotEnd(2)]
    ensures QueueOf(us, 3) == QueueOf(SingleCycle(10, 1), 3) && 3 !in QueueOf(us, 3)
    ensures var q := QueueOf(us, 3)[3 := SnapshotEnd(2)];
            Complete(q) && |q| == 4
            && q[0] == SnapshotStart(1) && q[1] == Clear(0) && q[2] == OPENED && q[3] == SnapshotEnd(2)
  {
    assert QueueOf(us, 0) == QueueOf(SingleCycle(10, 1), 0);
    assert QueueOf(us, 1) == QueueOf(SingleCycle(10, 1), 1);
    assert QueueOf(us, 2) == QueueOf(SingleCycle(10, 1), 2);
    assert QueueOf(us, 3) == QueueOf(SingleCycle(10, 1), 3);
    assert QueueOf(us, 4) == QueueOf(us, 3)[3 := SnapshotEnd(2)];
    QueueOfAt(us, 3);
    QueueOfAt(us, 4);
    QueueOfPrefix(us, 4);
  }

  lemma {:induction false} SplicedReached(u: Update) returns (es: seq<Event>)
    requires Second(u) && Enabled(ONE, Midway(u, 3), SnapshotMsg(1, 3))
    ensures Exec(ONE, es) == Some(After(ONE, Midway(u, 3), SnapshotMsg(1, 3)))
    ensures es != [] && es[|es| - 1] == SnapshotMsg(1, 3) && Exec(ONE, es[..|es| - 1]) == Some(Midway(u, 3))
  {
    OutageReached(u);
    OldCycle(u, 0);
    OldCycle(u, 1);
    OldCycle(u, 2);
    hide Enabled, After, Exec, Midway;
    es := Outage(u);
    ExecTo(ONE, es, Midway(u, 0), SnapshotMsg(0, 0), Midway(u, 1));
    es := es + [SnapshotMsg(0, 0)];
    ExecTo(ONE, es, Midway(u, 1), SnapshotMsg(0, 1), Midway(u, 2));
    es := es + [SnapshotMsg(0, 1)];
    ExecTo(ONE, es, Midway(u, 2), SnapshotMsg(0, 2), Midway(u, 3));
    es := es + [SnapshotMsg(0, 2)];
    ExecMore(ONE, es, SnapshotMsg(1, 3));
    assert (es + [SnapshotMsg(1, 3)])[..|es|] == es;
    es := es + [SnapshotMsg(1, 3)];
  }

  lemma {:induction false} StillPublished(u: Update)
    requires Enabled(ONE, Midway(u, 3), SnapshotMsg(1, 3))
    ensures After(ONE, Midway(u, 3), SnapshotMsg(1, 3)).published == [OPENED, u]
  {
  }

  lemma {:induction false} SplicedBook(u: Update)
    requires Second(u)
    ensures Fold(EmptyBooks(1), [Clear(0), OPENED]) == Single(10)
            && Fold(EmptyBooks(1), [OPENED, u]) == Single(Later(u))
  {
    BooksOfTwo(u);
    FoldOne(EmptyBooks(1), [], Clear(0));
    FoldOne(EmptyBooks(1), [Clear(0)], OPENED);
    assert [] + [Clear(0)] == [Clear(0)] && [Clear(0)] + [OPENED] == [Clear(0), OPENED];
    assert Step(EmptyBooks(1), Clear(0)) == EmptyBooks(1);
    FoldOne(EmptyBooks(1), [], OPENED);
    assert [] + [OPENED] == [OPENED];
  }
}
