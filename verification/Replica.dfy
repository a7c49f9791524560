/**
  What the replicas make of all that a consumer emits. A replica survives a CLEAR only when its book is empty, so the
  question is which recoveries find it so. A client that joins late has one recovery, before anything was emitted.
*/
module Replicas {
  import opened Types
  import opened Feed
  import opened Snapshot
  import opened Consumer
  import opened Recovery

  /** The snapshot part: each ticker's CLEAR finds an empty book, and each listed ADD is well formed. */
  lemma {:induction false} BodiesUsable(ts: seq<Table>, n: nat, k: nat, target: seq<PublicBook>)
    requires |ts| == |target| && k <= |ts| && AllHold(target, ts) && BooksOk(target) && Below(ts, n)
    ensures UsableStream(EmptyBooks(|ts|), Bodies(ts, n, k))
  {
    hide UsableStream, AllHold, BooksOk, Below, Listing;
    if k == 0 {
      NothingUsable(EmptyBooks(|ts|));
    } else {
      BodiesUsable(ts, n, k - 1, target);
      TickerNext(ts, n, k - 1, target);
    }
  }

  lemma {:induction false} TickerNext(ts: seq<Table>, n: nat, k: nat, target: seq<PublicBook>)
    requires |ts| == |target| && k < |ts| && AllHold(target, ts) && BooksOk(target) && Below(ts, n)
    requires UsableStream(EmptyBooks(|ts|), Bodies(ts, n, k))
    ensures UsableStream(EmptyBooks(|ts|), Bodies(ts, n, k) + ([Clear(k)] + Listing(ts[k], k, n)))
  {
    hide Fold, Holds, BookOk, Listing, UsableStream, Below, Bodies;
    BodiesReplay(EmptyBooks(|ts|), ts, n, k, target);
    StillEmpty(target, k + 1);
    TickerUsable(Fold(EmptyBooks(|ts|), Bodies(ts, n, k)), ts[k], k, n, target[k]);
    UsableConcat(EmptyBooks(|ts|), Bodies(ts, n, k), [Clear(k)] + Listing(ts[k], k, n));
  }

  lemma {:induction false} StillEmpty(target: seq<PublicBook>, k: nat)
    requires 0 < k <= |target|
    ensures (target[..k - 1] + EmptyBooks(|target|)[k - 1..])[k - 1] == EMPTY_BOOK
  {
  }

  lemma {:induction false} TickerUsable(bs: seq<PublicBook>, t: Table, k: nat, n: nat, b: PublicBook)
    requires k < |bs| && bs[k] == EMPTY_BOOK && BookOk(b) && Holds(b, t)
    ensures UsableStream(bs, [Clear(k)] + Listing(t, k, n))
  {
    FoldOne(bs, [], Clear(k));
    assert [] + [Clear(k)] == [Clear(k)] && [Clear(k)][..0] == [];
    assert Fold(bs, []) == bs && UsableStream(bs, []);
    assert UsableStream(bs, [Clear(k)]);
    assert Fold(bs, [Clear(k)]) == bs;
    ListingGood(bs, t, k, n, b);
    GoodUsable(bs, Listing(t, k, n));
    hide Fold, UsableStream;
    UsableConcat(bs, [Clear(k)], Listing(t, k, n));
  }

  /** A cycle's body and the incrementals behind it, on empty books. */
  lemma {:induction false} FirstRecoveryUsable(lim: Limits, us: seq<Update>, m: nat, b: nat)
    requires GoodStream(EmptyBooks(lim.tickers), us) && IdsBelow(us, lim.ids) && m <= b <= |us|
    ensures UsableStream(EmptyBooks(lim.tickers), BodyAt(lim, us, m) + us[m..b])
  {
    var empty := EmptyBooks(lim.tickers);
    var ts := FoldTables(EmptyTables(lim.tickers), us[..m]);
    hide Fold, GoodStream, UsableStream, FoldTables, Bodies, Holds, BookOk;
    GoodPrefix(empty, us, m);
    TablesFollow(lim.tickers, us[..m]);
    PrefixBelow(us, lim.ids, m);
    TablesBelow(lim.tickers, us[..m], lim.ids);
    BodiesUsable(ts, lim.ids, lim.tickers, BooksAt(lim, us, m));
    CycleReplay(lim, us, m, empty);
    RestUsable(lim, us, m, b);
    UsableConcat(empty, BodyAt(lim, us, m), us[m..b]);
  }

  lemma {:induction false} RestUsable(lim: Limits, us: seq<Update>, m: nat, b: nat)
    requires GoodStream(EmptyBooks(lim.tickers), us) && m <= b <= |us|
    ensures UsableStream(BooksAt(lim, us, m), us[m..b])
  {
    hide Fold, GoodStream, UsableStream;
    GoodPrefix(EmptyBooks(lim.tickers), us, b);
    assert us[..b] == us[..m] + us[m..b];
    GoodSuffix(EmptyBooks(lim.tickers), us[..m], us[m..b]);
    GoodUsable(BooksAt(lim, us, m), us[m..b]);
  }

  // ---------------------------------------------------------------- one ticker's part

  lemma {:induction false} ListingElsewhere(table: Table, k: nat, n: nat, t: nat)
    requires k != t
    ensures Only(Listing(table, k, n), t) == []
  {
    if n > 0 {
      ListingElsewhere(table, k, n - 1, t);
      var us := Listing(table, k, n - 1);
      if n - 1 in table {
        OnlyOne(AddOf(table[n - 1], k), t);
        OnlyConcat(us, [AddOf(table[n - 1], k)], t);
      } else {
        assert Listing(table, k, n) == us;
      }
    }
  }

  /** One ticker's part of a cycle, as the replica of ticker `t` sees it. */
  lemma {:induction false} TickerSeen(table: Table, k: nat, n: nat, t: nat)
    ensures var us := Only([Clear(k)] + Listing(table, k, n), t);
            if k == t then us != [] && us[0] == Clear(t) else us == []
  {
    hide Only, Listing;
    OnlyConcat([Clear(k)], Listing(table, k, n), t);
    OnlyOne(Clear(k), t);
    if k != t {
      ListingElsewhere(table, k, n, t);
    }
  }

  /** What a cycle holds for a ticker begins with its CLEAR. */
  lemma {:induction false} ClearComesFirst(ts: seq<Table>, n: nat, k: nat, t: nat)
    requires k <= |ts|
    ensures var us := Only(Bodies(ts, n, k), t); if k <= t then us == [] else us != [] && us[0] == Clear(t)
  {
    hide Only, Listing;
    if k == 0 {
      OnlyNothing(t);
    } else {
      ClearComesFirst(ts, n, k - 1, t);
      TickerSeen(ts[k - 1], k - 1, n, t);
      OnlyConcat(Bodies(ts, n, k - 1), [Clear(k - 1)] + Listing(ts[k - 1], k - 1, n), t);
    }
  }

  /** A CLEAR can be taken by an empty book and by no other. */
  lemma {:induction false} ClearNeedsEmpty(b: PublicBook, us: seq<Update>, t: nat)
    requires us != [] && us[0] == Clear(t) && UsableAll(b, us)
    ensures b == EMPTY_BOOK
  {
    assert us[..0] == [] && ApplyAll(b, []) == b;
    assert Usable(ApplyAll(b, us[..0]), us[0]);
  }

  /** The book of a ticker that a client has built from what its consumer emitted. */
  ghost function Built(lim: Limits, out: seq<Update>, t: nat): PublicBook
    requires t < lim.tickers
  {
    Fold(EmptyBooks(lim.tickers), out)[t]
  }

  /** A replica that could take all so far can take a completed recovery if and only if it is empty. */
  lemma {:induction false} EmittedUsable(
      lim: Limits, us: seq<Update>, out: seq<Update>, r: State, m: nat, t: nat)
    requires GoodStream(EmptyBooks(lim.tickers), us) && IdsBelow(us, lim.ids) && t < lim.tickers
    requires EmitsCycle(lim, us, out, r, m)
    ensures UsableAll(EMPTY_BOOK, Only(r.out, t)) <==>
            UsableAll(EMPTY_BOOK, Only(out, t)) && Built(lim, out, t) == EMPTY_BOOK
  {
    var empty := EmptyBooks(lim.tickers);
    hide UsableStream, GoodStream, IdsBelow, Only, UsableAll, ApplyAll, BodyAt, Fold;
    FirstRecoveryUsable(lim, us, m, r.next - 1);
    RecoverySeen(lim, us, m, us[m..r.next - 1], t);
    var vs := BodyAt(lim, us, m) + us[m..r.next - 1];
    OnlyUsable(empty, vs, t);
    assert r.out == out + vs;
    OnlyConcat(out, vs, t);
    OnlyApplies(empty, out, t);
    UsableAllConcat(EMPTY_BOOK, Only(out, t), Only(vs, t));
    if UsableAll(EMPTY_BOOK, Only(r.out, t)) {
      ClearNeedsEmpty(Built(lim, out, t), Only(vs, t), t);
    }
  }

  lemma {:induction false} RecoverySeen(lim: Limits, us: seq<Update>, m: nat, rest: seq<Update>, t: nat)
    requires m <= |us| && t < lim.tickers
    ensures var vs := Only(BodyAt(lim, us, m) + rest, t); vs != [] && vs[0] == Clear(t)
  {
    ClearComesFirst(FoldTables(EmptyTables(lim.tickers), us[..m]), lim.ids, lim.tickers, t);
    hide Only, FoldTables, Bodies;
    OnlyConcat(BodyAt(lim, us, m), rest, t);
  }

  lemma {:induction false} NextIsGood(lim: Limits, us: seq<Update>, k: nat)
    requires GoodStream(EmptyBooks(lim.tickers), us) && k < |us|
    ensures StepOk(BooksAt(lim, us, k), us[k])
  {
    GoodPrefix(EmptyBooks(lim.tickers), us, k + 1);
    assert us[..k + 1][..k] == us[..k] && us[..k + 1][k] == us[k];
  }

  /** The next incremental in order is one the replica's book is ready for. */
  lemma {:induction false} InOrderUsable(lim: Limits, us: seq<Update>, out: seq<Update>, k: nat, t: nat)
    requires GoodStream(EmptyBooks(lim.tickers), us) && k < |us| && t < lim.tickers
    requires Fold(EmptyBooks(lim.tickers), out) == BooksAt(lim, us, k)
    ensures UsableAll(EMPTY_BOOK, Only(out + [us[k]], t)) <==> UsableAll(EMPTY_BOOK, Only(out, t))
  {
    hide Fold, WellFormed, GoodStream, Only, UsableAll, ApplyAll;
    NextIsGood(lim, us, k);
    OnlyApplies(EmptyBooks(lim.tickers), out, t);
    OnlyConcat(out, [us[k]], t);
    OnlyOne(us[k], t);
    UsableAllConcat(EMPTY_BOOK, Only(out, t), [us[k]]);
    UsableOne(Built(lim, out, t), us[k]);
    assert Only(out, t) + [] == Only(out, t);
  }

  // ---------------------------------------------------------------- over whole runs

  predicate InOrder(s: Net, e: Event) {
    e.Incremental? && !s.consumer.recovering && e.k == s.consumer.next
  }

  /** If this step completes a recovery, it finds the ticker's book empty. */
  ghost predicate MeetsEmpty(lim: Limits, s: Net, e: Event, t: nat)
    requires Enabled(lim, s, e) && t < lim.tickers
  {
    !InOrder(s, e) && After(lim, s, e).consumer.out != s.consumer.out ==> Built(lim, s.consumer.out, t) == EMPTY_BOOK
  }

  /** Every recovery of the run finds the ticker's book empty. */
  ghost predicate RecoversEmpty(lim: Limits, es: seq<Event>, t: nat)
    requires Exec(lim, es).Some? && t < lim.tickers
  {
    es == [] ||
    (RecoversEmpty(lim, es[..|es| - 1], t) && MeetsEmpty(lim, Exec(lim, es[..|es| - 1]).value, es[|es| - 1], t))
  }

  lemma {:induction false} StepUsable(lim: Limits, s: Net, e: Event, t: nat)
    requires Inv(lim, s) && Enabled(lim, s, e) && Agreeing(lim, s, e) && t < lim.tickers
    ensures UsableAll(EMPTY_BOOK, Only(After(lim, s, e).consumer.out, t)) <==>
            UsableAll(EMPTY_BOOK, Only(s.consumer.out, t)) && MeetsEmpty(lim, s, e, t)
  {
    hide UsableAll, Fold, GoodStream, EmitsCycle, CheckSync, SnapOk, IncOk, CycleAt, Only, IdsBelow, Built;
    var us, out, r := s.published, s.consumer.out, After(lim, s, e).consumer;
    match e
    case Incremental(k) =>
      if InOrder(s, e) {
        InOrderUsable(lim, us, out, k - 1, t);
      } else {
        IncrementalKeepsInv(lim, s, k);
        if r.out != out {
          var m: nat :| EmitsCycle(lim, us, out, r, m);
          EmittedUsable(lim, us, out, r, m, t);
        }
      }
    case SnapshotMsg(c, i) =>
      SnapshotKeepsInv(lim, s, c, i);
      if r.out != out {
        var m: nat :| EmitsCycle(lim, us, out, r, m);
        EmittedUsable(lim, us, out, r, m, t);
      }
    case _ =>
  }

  lemma {:induction false} NothingUsable(bs: seq<PublicBook>)
    ensures UsableStream(bs, [])
  {
  }

  /** A ticker's replica can take all that the consumer emits if and only if every recovery finds its book empty. */
  lemma {:induction false} UsableExactly(lim: Limits, es: seq<Event>, t: nat)
    requires Exec(lim, es).Some? && AgreeingRun(lim, es) && t < lim.tickers
    ensures UsableAll(EMPTY_BOOK, Only(Exec(lim, es).value.consumer.out, t)) <==> RecoversEmpty(lim, es, t)
  {
    hide Inv, Enabled, After, Agreeing, MeetsEmpty, Only;
    if es == [] {
      OnlyNothing(t);
    } else {
      hide UsableAll;
      var before := es[..|es| - 1];
      UsableExactly(lim, before, t);
      RecoverySafe(lim, before);
      StepUsable(lim, Exec(lim, before).value, es[|es| - 1], t);
    }
  }

  /**
    In every run whose accepted snapshots have agreeing markers: the replica of a ticker can take its whole stream,
    from an empty book on, exactly when every recovery finds its book empty; and outside recovery that stream ends at
    the exchange's book.
  */
  lemma {:induction false} ReplicaFollows(lim: Limits, es: seq<Event>, t: nat)
    requires Exec(lim, es).Some? && AgreeingRun(lim, es) && t < lim.tickers
    ensures var s := Exec(lim, es).value;
            var us := Only(s.consumer.out, t);
            && (UsableAll(EMPTY_BOOK, us) <==> RecoversEmpty(lim, es, t))
            && (!s.consumer.recovering ==>
                  && 1 <= s.consumer.next <= |s.published| + 1
                  && ApplyAll(EMPTY_BOOK, us) == BooksAt(lim, s.published, s.consumer.next - 1)[t])
  {
    hide Fold, UsableAll, ApplyAll, Only, RecoversEmpty, WorldOk, IncOk, SnapOk, Exec;
    UsableExactly(lim, es, t);
    RecoverySafe(lim, es);
    var s := Exec(lim, es).value;
    OnlyApplies(EmptyBooks(lim.tickers), s.consumer.out, t);
  }

  /** A client that joins late: its first recovery is its only one, and nothing was emitted before it. */
  ghost predicate JoinsOnce(lim: Limits, es: seq<Event>)
    requires Exec(lim, es).Some?
  {
    es == [] ||
    var s, e := Exec(lim, es[..|es| - 1]).value, es[|es| - 1];
    && JoinsOnce(lim, es[..|es| - 1])
    && (!InOrder(s, e) && After(lim, s, e).consumer.out != s.consumer.out ==> s.consumer.out == [])
  }

  /** For it, every replica is usable throughout. */
  lemma {:induction false} LateJoinerUsable(lim: Limits, es: seq<Event>, t: nat)
    requires Exec(lim, es).Some? && AgreeingRun(lim, es) && JoinsOnce(lim, es) && t < lim.tickers
    ensures RecoversEmpty(lim, es, t) && UsableAll(EMPTY_BOOK, Only(Exec(lim, es).value.consumer.out, t))
  {
    UsableExactly(lim, es, t);
    if es != [] {
      LateJoinerUsable(lim, es[..|es| - 1], t);
    }
  }
}
