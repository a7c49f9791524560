/**
  A second recovery. From every state outside recovery in which a ticker has orders, one repeated incremental and one
  undisturbed snapshot cycle lead to a state in which the consumer has emitted exactly what it should, and the
  ticker's replica cannot take it.
*/
module SecondRecoveries {
  import opened Types
  import opened Feed
  import opened Snapshot
  import opened Consumer
  import opened Recovery
  import opened Replicas
  import opened LostStarts

  /** A recovering consumer with no snapshot queued, and a cycle that may still arrive. */
  ghost predicate Awaiting(lim: Limits, s: Net, c: nat) {
    && s.consumer.recovering && s.consumer.snap == map[]
    && s.seen <= c < |s.cycles| && s.cycles[c] <= |s.published|
  }

  ghost function CycleOf(lim: Limits, s: Net, c: nat): seq<Update>
    requires Awaiting(lim, s, c)
  {
    CycleAt(lim, s.published, s.cycles[c])
  }

  /** The state after the first `j` messages of the cycle. */
  ghost function Arrived(lim: Limits, s: Net, c: nat, j: nat): Net
    requires Awaiting(lim, s, c) && j <= |CycleOf(lim, s, c)|
  {
    s.(seen := c, consumer := DeliverAll(s.consumer, true, Numbered(CycleOf(lim, s, c), 0)[..j]))
  }

  /** One more message of the cycle keeps the markers in agreement. */
  lemma {:induction false} NextArrives(lim: Limits, s: Net, c: nat, j: nat)
    requires Awaiting(lim, s, c) && j < |CycleOf(lim, s, c)|
    ensures var a := if j == 0 then s else Arrived(lim, s, c, j);
            var e := SnapshotMsg(c, j);
            Enabled(lim, a, e) && Agreeing(lim, a, e) && After(lim, a, e) == Arrived(lim, s, c, j + 1)
  {
    hide FoldTables, Cycle, CheckSync, MarkersAgree, DeliverAll, Numbered, QueueOf, Contiguous;
    var us, m := CycleOf(lim, s, c), s.cycles[c];
    var ts := FoldTables(EmptyTables(lim.tickers), s.published[..m]);
    assert us == Cycle(ts, lim.ids, m);
    hide CycleAt;
    PartDelivered(s.consumer, ts, lim.ids, m, j);
    WholeAgrees(lim, s.published, m, j + 1);
    DeliverNext(s.consumer, s.consumer.(snap := QueueOf(us, j)), us, j);
    QueuedNext(us, j);
    NothingDelivered(s.consumer, us);
  }

  lemma {:induction false} QueuedNext(us: seq<Update>, j: nat)
    requires j < |us|
    ensures j !in QueueOf(us, j) && QueueOf(us, j + 1) == QueueOf(us, j)[j := us[j]]
  {
    QueueOfAt(us, j);
  }

  lemma {:induction false} NothingDelivered(s: State, us: seq<Update>)
    ensures DeliverAll(s, true, Numbered(us, 0)[..0]) == s
  {
  }

  lemma {:induction false} WholeAgrees(lim: Limits, us: seq<Update>, m: nat, j: nat)
    requires m <= |us| && j <= |CycleAt(lim, us, m)|
    ensures MarkersAgree(QueueOf(CycleAt(lim, us, m), j))
  {
    var q := QueueOf(CycleAt(lim, us, m), j);
    QueueOfAt(CycleAt(lim, us, m), j);
    hide CycleAt, MarkersAgree;
    assert AllFrom(lim, us, m, q);
    AllFromAgrees(lim, us, m, q);
  }

  /** The first `j` messages of a cycle, in order. */
  function Messages(c: nat, j: nat): seq<Event> {
    if j == 0 then [] else Messages(c, j - 1) + [SnapshotMsg(c, j - 1)]
  }

  /** A cycle that arrives whole and in order, as part of a run. */
  lemma {:induction false} CycleArrives(lim: Limits, es: seq<Event>, s: Net, c: nat, j: nat) returns (es': seq<Event>)
    requires Exec(lim, es) == Some(s) && AgreeingRun(lim, es) && Awaiting(lim, s, c)
    requires 0 < j <= |CycleOf(lim, s, c)|
    ensures es' == es + Messages(c, j)
    ensures Exec(lim, es') == Some(Arrived(lim, s, c, j)) && AgreeingRun(lim, es')
  {
    NextArrives(lim, s, c, j - 1);
    hide Exec, AgreeingRun, Awaiting, Enabled, After, Agreeing, Arrived, CycleOf;
    if j == 1 {
      es' := Onward(lim, es, s, SnapshotMsg(c, 0));
      assert Messages(c, 0) == [] && Messages(c, 1) == [SnapshotMsg(c, 0)];
    } else {
      es' := CycleArrives(lim, es, s, c, j - 1);
      es' := Onward(lim, es', Arrived(lim, s, c, j - 1), SnapshotMsg(c, j - 1));
      MessagesMore(es, c, j);
    }
  }

  lemma {:induction false} MessagesMore(es: seq<Event>, c: nat, j: nat)
    requires j > 0
    ensures es + Messages(c, j - 1) + [SnapshotMsg(c, j - 1)] == es + Messages(c, j)
  {
  }

  lemma {:induction false} Onward(lim: Limits, es: seq<Event>, s: Net, e: Event) returns (es': seq<Event>)
    requires Exec(lim, es) == Some(s) && AgreeingRun(lim, es) && Enabled(lim, s, e) && Agreeing(lim, s, e)
    ensures es' == es + [e] && Exec(lim, es') == Some(After(lim, s, e)) && AgreeingRun(lim, es')
  {
    hide Enabled, After, Agreeing;
    es' := es + [e];
    assert es'[..|es|] == es;
  }

  /** A new cycle is sent and incremental 1 comes again: the consumer waits for the cycle. */
  ghost function Repeated(s: Net): Net
    requires s.published != []
  {
    s.(cycles := s.cycles + [s.synced],
       consumer := State(true, s.consumer.next, map[], map[1 := s.published[0]], s.consumer.out))
  }

  lemma {:induction false} Repeat(lim: Limits, es: seq<Event>, s: Net) returns (es': seq<Event>)
    requires Exec(lim, es) == Some(s) && AgreeingRun(lim, es)
    requires s.published != [] && !s.consumer.recovering && s.consumer.next > 1
    ensures es' == es + [SendCycle, Incremental(1)] && Exec(lim, es') == Some(Repeated(s)) && AgreeingRun(lim, es')
  {
    hide Exec, AgreeingRun;
    es' := Onward(lim, es, s, SendCycle);
    es' := Onward(lim, es', s.(cycles := s.cycles + [s.synced]), Incremental(1));
  }

  /** The orders of a ticker came with some incremental, so that there is one to repeat. */
  lemma {:induction false} SomethingPublished(lim: Limits, s: Net, t: nat)
    requires Inv(lim, s) && t < lim.tickers && Built(lim, s.consumer.out, t) != EMPTY_BOOK && !s.consumer.recovering
    ensures s.published != [] && s.consumer.next > 1
  {
    hide WorldOk, IncOk, SnapOk;
    assert s.published[..0] == [];
  }

  /** Recovery with a cycle sent after `m` incrementals, when incremental 1 is the only one queued. */
  lemma {:induction false} RecoversAgain(lim: Limits, s: Net, c: nat, t: nat)
    requires Awaiting(lim, s, c) && t < lim.tickers && s.published != [] && s.consumer.inc == map[1 := s.published[0]]
    requires Built(lim, s.consumer.out, t) != EMPTY_BOOK
    ensures var r := Arrived(lim, s, c, |CycleOf(lim, s, c)|).consumer;
            !r.recovering && !UsableAll(EMPTY_BOOK, Only(r.out, t))
  {
    var us, m := CycleOf(lim, s, c), s.cycles[c];
    var ts := FoldTables(EmptyTables(lim.tickers), s.published[..m]);
    hide Fold, Only, UsableAll, Bodies, Payload, DeliverAll, Numbered, FoldTables;
    assert NothingFrom(s.consumer.inc, RunEnd(s.consumer.inc, m + 1));
    RecoveryCompletes(s.consumer, ts, lim.ids, m);
    assert Numbered(us, 0)[..|us|] == Numbered(us, 0);
    var r := Arrived(lim, s, c, |us|).consumer;
    BodyBreaks(lim, s.published, s.consumer.out, m, Payload(s.consumer.inc, m + 1, r.next), t);
  }

  lemma {:induction false} BodyBreaks(
      lim: Limits, us: seq<Update>, out: seq<Update>, m: nat, rest: seq<Update>, t: nat)
    requires m <= |us| && t < lim.tickers && Built(lim, out, t) != EMPTY_BOOK
    ensures !UsableAll(EMPTY_BOOK, Only(out + BodyAt(lim, us, m) + rest, t))
  {
    var vs := BodyAt(lim, us, m) + rest;
    assert out + BodyAt(lim, us, m) + rest == out + vs;
    RecoverySeen(lim, us, m, rest, t);
    hide Fold, Only, UsableAll, ApplyAll, BodyAt;
    OnlyConcat(out, vs, t);
    OnlyApplies(EmptyBooks(lim.tickers), out, t);
    UsableAllConcat(EMPTY_BOOK, Only(out, t), Only(vs, t));
    if UsableAll(EMPTY_BOOK, Only(out + vs, t)) {
      ClearNeedsEmpty(Built(lim, out, t), Only(vs, t), t);
    }
  }

  /** Whatever orders a ticker has, one repeated incremental and one whole cycle later its replica cannot follow. */
  lemma {:induction false} RepeatBreaks(lim: Limits, es: seq<Event>, t: nat) returns (es': seq<Event>, j: nat)
    requires Exec(lim, es).Some? && AgreeingRun(lim, es) && t < lim.tickers
    requires var s := Exec(lim, es).value; !s.consumer.recovering && Built(lim, s.consumer.out, t) != EMPTY_BOOK
    ensures es' == es + [SendCycle, Incremental(1)] + Messages(|Exec(lim, es).value.cycles|, j)
    ensures Breaks(lim, es', t)
  {
    hide Exec, AgreeingRun, Built, Inv, UsableAll, DeliverAll, CycleAt, Awaiting, Messages, Only;
    var s := Exec(lim, es).value;
    RecoverySafe(lim, es);
    SomethingPublished(lim, s, t);
    es' := Repeat(lim, es, s);
    var w, c := Repeated(s), |s.cycles|;
    RepeatedAwaits(lim, s);
    j := |CycleOf(lim, w, c)|;
    es' := CycleArrives(lim, es', w, c, j);
    RecoversAgain(lim, w, c, t);
  }

  lemma {:induction false} RepeatedAwaits(lim: Limits, s: Net)
    requires Inv(lim, s) && s.published != []
    ensures Awaiting(lim, Repeated(s), |s.cycles|) && CycleOf(lim, Repeated(s), |s.cycles|) != []
  {
    hide IncOk, SnapOk, Faithful, GoodStream;
    assert Awaiting(lim, Repeated(s), |s.cycles|);
  }

  /** A run outside recovery, with agreeing markers, whose stream the ticker's replica cannot take. */
  ghost predicate Breaks(lim: Limits, es: seq<Event>, t: nat) {
    && Exec(lim, es).Some? && AgreeingRun(lim, es)
    && !Exec(lim, es).value.consumer.recovering
    && !UsableAll(EMPTY_BOOK, Only(Exec(lim, es).value.consumer.out, t))
  }

  /** On one order: it is published and arrives, then arrives again, and a cycle follows. */
  lemma {:induction false} SecondRecoveryBreaks()
    ensures exists es :: Breaks(ONE, es, 0)
  {
    var s := START.(published := [OPENED], consumer := INITIAL.(next := 2, out := [OPENED]));
    FirstSteps(TRADED);
    BooksOfTwo(TRADED);
    assert [] + [OPENED] == [OPENED];
    ExecNothing();
    hide Exec, Fold, BooksAt, StepOk;
    assert AgreeingRun(ONE, []);
    var es := Onward(ONE, [], START, Publish(OPENED));
    es := Onward(ONE, es, START.(published := [OPENED]), Incremental(1));
    hide AgreeingRun, Breaks;
    var es', _ := RepeatBreaks(ONE, es, 0);
  }
}
