/**
  The replication protocol as a whole: the exchange publishes, the synthesizer follows and sends snapshot
  cycles, and the network delivers incrementals in any order, any number of times or not at all.
  Snapshot messages may be lost, repeated and reordered within a cycle; a message of an older cycle never
  arrives after one of a newer cycle. One step delivers one message. A receive buffer is a run of such
  steps; a snapshot buffer thrown away outside recovery is a buffer of lost messages.
*/
module Recovery {
  import opened Types
  import opened Feed
  import opened Snapshot
  import opened Consumer

  /** Number of tickers and size of the synthesizer's order tables. */
  datatype Limits = Limits(tickers: nat, ids: nat)

  /**
    `published` are the incrementals so far (number k stands at k - 1), of which the synthesizer has
    read `synced`; `cycles[c]` is what it had read when it sent cycle `c`, and `seen` the newest cycle
    of which the consumer has received anything.
  */
  datatype Net = Net(published: seq<Update>, synced: nat, cycles: seq<nat>, seen: nat, consumer: State)

  const START: Net := Net([], 0, [], 0, INITIAL)

  datatype Event =
    | Publish(u: Update)
    | Sync
    | SendCycle
    | Incremental(k: nat)
    | SnapshotMsg(cycle: nat, offset: nat)

  /** The books after the first `m` incrementals. */
  ghost function BooksAt(lim: Limits, us: seq<Update>, m: nat): seq<PublicBook>
    requires m <= |us|
  {
    Fold(EmptyBooks(lim.tickers), us[..m])
  }

  /** The messages of a cycle sent after reading `m` incrementals. */
  ghost function CycleAt(lim: Limits, us: seq<Update>, m: nat): seq<Update>
    requires m <= |us|
  {
    Cycle(FoldTables(EmptyTables(lim.tickers), us[..m]), lim.ids, m)
  }

  ghost predicate Enabled(lim: Limits, s: Net, e: Event) {
    match e
    case Publish(u) => StepOk(BooksAt(lim, s.published, |s.published|), u) && (u.Add? ==> u.id < lim.ids)
    case Sync => s.synced < |s.published|
    case SendCycle => true
    case Incremental(k) => 1 <= k <= |s.published|
    case SnapshotMsg(c, i) =>
      s.seen <= c < |s.cycles| && s.cycles[c] <= |s.published| && i < |CycleAt(lim, s.published, s.cycles[c])|
  }

  ghost function After(lim: Limits, s: Net, e: Event): Net
    requires Enabled(lim, s, e)
  {
    match e
    case Publish(u) => s.(published := s.published + [u])
    case Sync => s.(synced := s.synced + 1)
    case SendCycle => s.(cycles := s.cycles + [s.synced])
    case Incremental(k) => s.(consumer := Deliver(s.consumer, false, k, s.published[k - 1]))
    case SnapshotMsg(c, i) =>
      s.(seen := c, consumer := Deliver(s.consumer, true, i, CycleAt(lim, s.published, s.cycles[c])[i]))
  }

  // ---------------------------------------------------------------- invariants

  ghost predicate WorldOk(lim: Limits, s: Net) {
    && GoodStream(EmptyBooks(lim.tickers), s.published)
    && IdsBelow(s.published, lim.ids)
    && s.synced <= |s.published|
    && (forall c | 0 <= c < |s.cycles| :: s.cycles[c] <= s.synced)
    && (forall c, d | 0 <= c <= d < |s.cycles| :: s.cycles[c] <= s.cycles[d])
    && (s.seen == 0 || s.seen < |s.cycles|)
  }

  /** Queued incrementals are what was published under their number. */
  ghost predicate IncOk(s: Net) {
    forall k | k in s.consumer.inc :: IsPublished(s.published, k, s.consumer.inc[k])
  }

  /** `cs[i]` is the cycle that queued snapshot message `i` came from. */
  ghost predicate Came(lim: Limits, us: seq<Update>, cycles: seq<nat>, seen: nat, q: Queue, cs: seq<nat>) {
    && |cs| == |q| && Contiguous(q)
    && (forall i, j | 0 <= i <= j < |cs| :: cs[i] <= cs[j])
    && (forall i | 0 <= i < |cs| :: cs[i] <= seen && cs[i] < |cycles| && CameFrom(lim, us, cycles[cs[i]], q, i))
  }

  ghost predicate CameFrom(lim: Limits, us: seq<Update>, m: nat, q: Queue, i: nat) {
    m <= |us| && i < |CycleAt(lim, us, m)| && i in q && q[i] == CycleAt(lim, us, m)[i]
  }

  ghost predicate SnapOk(lim: Limits, s: Net) {
    exists cs :: Came(lim, s.published, s.cycles, s.seen, s.consumer.snap, cs)
  }

  /** What the consumer has emitted folds to the exchange's books after `k` incrementals. */
  ghost predicate Shows(lim: Limits, s: Net, k: nat) {
    && k <= |s.published|
    && Fold(EmptyBooks(lim.tickers), s.consumer.out) == BooksAt(lim, s.published, k)
  }

  /**
    The consumer's emitted stream always folds to some past state of the exchange's books, and outside
    recovery to the state just before the next expected incremental.
  */
  ghost predicate Faithful(lim: Limits, s: Net) {
    && (exists k :: Shows(lim, s, k))
    && (!s.consumer.recovering ==> s.consumer.next >= 1 && Shows(lim, s, s.consumer.next - 1))
  }

  ghost predicate Inv(lim: Limits, s: Net) {
    WorldOk(lim, s) && IncOk(s) && SnapOk(lim, s) && Faithful(lim, s)
  }

  // ---------------------------------------------------------------- the shape of a cycle

  lemma {:induction false} ListingAdds(t: Table, k: nat, n: nat)
    ensures forall i | 0 <= i < |Listing(t, k, n)| :: Listing(t, k, n)[i].Add?
  {
    if n > 0 {
      ListingAdds(t, k, n - 1);
    }
  }

  lemma {:induction false} BodiesUnmarked(ts: seq<Table>, n: nat, k: nat)
    requires k <= |ts|
    ensures forall i | 0 <= i < |Bodies(ts, n, k)| :: !Marker(Bodies(ts, n, k)[i])
  {
    if k > 0 {
      BodiesUnmarked(ts, n, k - 1);
      ListingAdds(ts[k - 1], k - 1, n);
    }
  }

  /** START stands first and END last in a cycle, both with the same number, and nowhere else. */
  lemma {:induction false} CycleShape(ts: seq<Table>, n: nat, m: nat, i: nat)
    requires i < |Cycle(ts, n, m)|
    ensures var c := Cycle(ts, n, m);
            && c[0] == SnapshotStart(m)
            && (c[i].SnapshotEnd? <==> i == |c| - 1)
            && (c[i].SnapshotEnd? ==> c[i].last == m)
            && (c[i].SnapshotStart? <==> i == 0)
  {
    BodiesUnmarked(ts, n, |ts|);
    var b := Bodies(ts, n, |ts|);
    assert 0 < i <= |b| ==> Cycle(ts, n, m)[i] == b[i - 1];
  }

  /** A queued copy of a whole cycle yields exactly its body. */
  lemma {:induction false} PayloadOfCycle(q: Queue, ts: seq<Table>, n: nat, m: nat, j: nat)
    requires j <= |Bodies(ts, n, |ts|)|
    requires forall i | 0 <= i <= j :: i in q && q[i] == Cycle(ts, n, m)[i]
    ensures Payload(q, 0, j + 1) == Bodies(ts, n, |ts|)[..j]
  {
    BodiesUnmarked(ts, n, |ts|);
    var b := Bodies(ts, n, |ts|);
    hide Bodies, Payload;
    PayloadNext(q, 0, j);
    if j == 0 {
      NoPayload(q);
      assert q[0] == SnapshotStart(m);
    } else {
      PayloadOfCycle(q, ts, n, m, j - 1);
      assert q[j] == b[j - 1];
      assert b[..j] == b[..j - 1] + [b[j - 1]];
    }
  }

  lemma {:induction false} WholePayload(q: Queue, ts: seq<Table>, n: nat, m: nat)
    requires var c := Cycle(ts, n, m); |q| == |c| && forall i | 0 <= i < |c| :: i in q && q[i] == c[i]
    ensures Payload(q, 0, |q|) == Bodies(ts, n, |ts|)
  {
    var b := Bodies(ts, n, |ts|);
    PayloadOfCycle(q, ts, n, m, |b|);
    assert q[|q| - 1] == SnapshotEnd(m);
    assert b[..|b|] == b;
  }

  /** `u` was published as incremental number `k`. */
  ghost predicate IsPublished(us: seq<Update>, k: nat, u: Update) {
    1 <= k <= |us| && u == us[k - 1] && !Marker(u)
  }

  lemma {:induction false} SliceMore(us: seq<Update>, i: nat, j: nat)
    requires i <= j < |us|
    ensures us[i..j + 1] == us[i..j] + [us[j]]
  {
  }

  /** A gapless run of queued incrementals yields that part of the published stream. */
  lemma {:induction false} PayloadOfRun(q: Queue, us: seq<Update>, i: nat, j: nat)
    requires i <= j <= |us|
    requires forall k: nat | i < k <= j :: k in q && IsPublished(us, k, q[k])
    ensures Payload(q, i + 1, j + 1) == us[i..j]
  {
    if i < j {
      hide Payload;
      assert IsPublished(us, j, q[j]);
      PayloadOfRun(q, us, i, j - 1);
      PayloadNext(q, i + 1, j);
      SliceMore(us, i, j - 1);
    }
  }

  lemma {:induction false} PublishedUnmarked(bs: seq<PublicBook>, us: seq<Update>, k: nat)
    requires GoodStream(bs, us) && k < |us|
    ensures !Marker(us[k])
  {
    GoodPrefix(bs, us, k + 1);
    assert us[..k + 1][..k] == us[..k] && us[..k + 1][k] == us[k];
  }

  // ---------------------------------------------------------------- replaying a cycle

  ghost predicate IdsBelow(us: seq<Update>, n: nat) {
    forall k | 0 <= k < |us| :: us[k].Add? ==> us[k].id < n
  }

  lemma {:induction false} TablesBelow(n: nat, us: seq<Update>, ids: nat)
    requires IdsBelow(us, ids)
    ensures Below(FoldTables(EmptyTables(n), us), ids)
  {
    if us != [] {
      TablesBelow(n, us[..|us| - 1], ids);
    }
  }

  lemma {:induction false} PrefixBelow(us: seq<Update>, ids: nat, m: nat)
    requires IdsBelow(us, ids) && m <= |us|
    ensures IdsBelow(us[..m], ids)
  {
  }

  /** Replaying the body of a cycle on any books gives the exchange's books at that cycle. */
  lemma {:induction false} CycleReplay(lim: Limits, us: seq<Update>, m: nat, bs: seq<PublicBook>)
    requires GoodStream(EmptyBooks(lim.tickers), us) && IdsBelow(us, lim.ids) && m <= |us|
    requires |bs| == lim.tickers
    ensures Fold(bs, Bodies(FoldTables(EmptyTables(lim.tickers), us[..m]), lim.ids, lim.tickers)) == BooksAt(lim, us, m)
  {
    GoodPrefix(EmptyBooks(lim.tickers), us, m);
    TablesFollow(lim.tickers, us[..m]);
    PrefixBelow(us, lim.ids, m);
    TablesBelow(lim.tickers, us[..m], lim.ids);
    SnapshotRebuilds(bs, FoldTables(EmptyTables(lim.tickers), us[..m]), lim.ids, BooksAt(lim, us, m));
  }

  lemma {:induction false} BooksAtRun(lim: Limits, us: seq<Update>, m: nat, b: nat)
    requires m <= b <= |us|
    ensures Fold(BooksAt(lim, us, m), us[m..b]) == BooksAt(lim, us, b)
  {
    FoldConcat(EmptyBooks(lim.tickers), us[..m], us[m..b]);
    assert us[..m] + us[m..b] == us[..b];
  }

  ghost function BodyAt(lim: Limits, us: seq<Update>, m: nat): seq<Update>
    requires m <= |us|
  {
    Bodies(FoldTables(EmptyTables(lim.tickers), us[..m]), lim.ids, lim.tickers)
  }

  /** A cycle's body and the incrementals after it take any books to those after `b` incrementals. */
  lemma {:induction false} RecoveredBooks(lim: Limits, us: seq<Update>, m: nat, b: nat, out: seq<Update>)
    requires GoodStream(EmptyBooks(lim.tickers), us) && IdsBelow(us, lim.ids) && m <= b <= |us|
    ensures Fold(EmptyBooks(lim.tickers), out + BodyAt(lim, us, m) + us[m..b]) == BooksAt(lim, us, b)
  {
    var empty := EmptyBooks(lim.tickers);
    var body, rest := BodyAt(lim, us, m), us[m..b];
    CycleReplay(lim, us, m, Fold(empty, out));
    hide Fold, GoodStream, Bodies;
    FoldConcat(empty, out, body);
    FoldConcat(empty, out + body, rest);
    BooksAtRun(lim, us, m, b);
  }

  // ---------------------------------------------------------------- accepting a snapshot

  /** The queued snapshot is about to be accepted or discarded for a gap in the incrementals. */
  ghost predicate Complete(q: Queue) {
    Prefix(q) && q[|q| - 1].SnapshotEnd?
  }

  /** What the consumer could compare and does not: both markers of a complete snapshot name one number. */
  ghost predicate MarkersAgree(q: Queue) {
    Complete(q) ==> q[0].last == q[|q| - 1].last
  }

  /** A complete queue whose markers agree is one whole cycle. */
  lemma {:induction false} AgreeingIsWhole(
      lim: Limits, us: seq<Update>, cycles: seq<nat>, seen: nat, q: Queue, cs: seq<nat>)
    requires Came(lim, us, cycles, seen, q, cs) && Complete(q) && MarkersAgree(q)
    requires forall c, d | 0 <= c <= d < |cycles| :: cycles[c] <= cycles[d]
    ensures var m := q[0].last;
            && m <= |us| && |q| == |CycleAt(lim, us, m)|
            && forall i | 0 <= i < |q| :: i in q && q[i] == CycleAt(lim, us, m)[i]
  {
    var n := |q| - 1;
    assert CameFrom(lim, us, cycles[cs[0]], q, 0);
    assert CameFrom(lim, us, cycles[cs[n]], q, n);
    var ts0 := FoldTables(EmptyTables(lim.tickers), us[..cycles[cs[0]]]);
    var tsn := FoldTables(EmptyTables(lim.tickers), us[..cycles[cs[n]]]);
    CycleShape(ts0, lim.ids, cycles[cs[0]], 0);
    CycleShape(tsn, lim.ids, cycles[cs[n]], n);
    hide CycleAt;
    assert cycles[cs[0]] == cycles[cs[n]] == q[0].last;
    forall i | 0 <= i < |q| ensures i in q && q[i] == CycleAt(lim, us, q[0].last)[i] {
      assert CameFrom(lim, us, cycles[cs[i]], q, i);
      assert cs[0] <= cs[i] <= cs[n];
    }
  }

  /** A completed recovery emits the body of one cycle and the incrementals after it. */
  lemma {:induction false} AcceptEmits(lim: Limits, s: Net, t: State, cs: seq<nat>)
    requires WorldOk(lim, s) && t.recovering && IncOk(s.(consumer := t))
    requires Came(lim, s.published, s.cycles, s.seen, t.snap, cs) && Complete(t.snap) && MarkersAgree(t.snap)
    ensures var r, m, us := CheckSync(t), t.snap[0].last, s.published;
            !r.recovering ==>
              m < r.next <= |us| + 1 && r.out == t.out + BodyAt(lim, us, m) + us[m..r.next - 1]
  {
    hide Came, Payload, RunEnd, IdsBelow, GoodStream;
    var us := s.published;
    var m := t.snap[0].last;
    AgreeingIsWhole(lim, us, s.cycles, s.seen, t.snap, cs);
    hide WorldOk;
    WholePayload(t.snap, FoldTables(EmptyTables(lim.tickers), us[..m]), lim.ids, m);
    hide CycleAt;
    QueuedRun(s.(consumer := t), m);
    hide IncOk, NothingFrom, BodyAt, MarkersAgree;
  }

  lemma {:induction false} QueuedRun(s: Net, m: nat)
    requires IncOk(s) && m <= |s.published|
    ensures var us, b := s.published, RunEnd(s.consumer.inc, m + 1);
            b <= |us| + 1 && Payload(s.consumer.inc, m + 1, b) == us[m..b - 1]
  {
    var us, inc := s.published, s.consumer.inc;
    var b := RunEnd(inc, m + 1);
    assert b > m + 1 ==> IsPublished(us, b - 1, inc[b - 1]);
    PayloadOfRun(inc, us, m, b - 1);
  }

  /** The queue is the whole cycle sent after reading `m` incrementals. */
  ghost predicate WholeCycle(lim: Limits, us: seq<Update>, q: Queue, m: nat) {
    m <= |us| && |q| == |CycleAt(lim, us, m)| && forall i | 0 <= i < |q| :: i in q && q[i] == CycleAt(lim, us, m)[i]
  }

  /** A complete queue is one whole cycle if and only if its markers agree. */
  lemma {:induction false} WholeIffAgreeing(
      lim: Limits, us: seq<Update>, cycles: seq<nat>, seen: nat, q: Queue, cs: seq<nat>)
    requires Came(lim, us, cycles, seen, q, cs) && Complete(q)
    requires forall c, d | 0 <= c <= d < |cycles| :: cycles[c] <= cycles[d]
    ensures (exists m :: WholeCycle(lim, us, q, m)) <==> q[0].last == q[|q| - 1].last
  {
    if q[0].last == q[|q| - 1].last {
      AgreeingIsWhole(lim, us, cycles, seen, q, cs);
      assert WholeCycle(lim, us, q, q[0].last);
    }
    if exists m :: WholeCycle(lim, us, q, m) {
      var m: nat :| WholeCycle(lim, us, q, m);
      var ts := FoldTables(EmptyTables(lim.tickers), us[..m]);
      CycleShape(ts, lim.ids, m, 0);
      CycleShape(ts, lim.ids, m, |q| - 1);
    }
  }

  /** What a check adds to the emitted stream: nothing, or a cycle's body and what was published behind it. */
  ghost predicate Emits(lim: Limits, us: seq<Update>, out: seq<Update>, r: State) {
    if r.recovering then r.out == out else exists m :: EmitsCycle(lim, us, out, r, m)
  }

  ghost predicate EmitsCycle(lim: Limits, us: seq<Update>, out: seq<Update>, r: State, m: nat) {
    m < r.next <= |us| + 1 && r.out == out + BodyAt(lim, us, m) + us[m..r.next - 1]
  }

  /** A completed recovery takes whatever was shown before to the books just before `next`. */
  lemma {:induction false} AcceptShows(lim: Limits, s: Net, t: State, cs: seq<nat>)
    requires WorldOk(lim, s) && t.recovering && IncOk(s.(consumer := t))
    requires Came(lim, s.published, s.cycles, s.seen, t.snap, cs) && Complete(t.snap) && MarkersAgree(t.snap)
    ensures var r := CheckSync(t); !r.recovering ==> r.next >= 1 && Shows(lim, s.(consumer := r), r.next - 1)
    ensures !CheckSync(t).recovering ==> Emits(lim, s.published, t.out, CheckSync(t))
  {
    hide Came, MarkersAgree, Fold, GoodStream, Bodies, IncOk, CheckSync, IdsBelow, BodyAt;
    AcceptEmits(lim, s, t, cs);
    hide Complete;
    var r := CheckSync(t);
    assert GoodStream(EmptyBooks(lim.tickers), s.published) && IdsBelow(s.published, lim.ids);
    hide WorldOk;
    if !r.recovering {
      RecoveredBooks(lim, s.published, t.snap[0].last, r.next - 1, t.out);
      assert EmitsCycle(lim, s.published, t.out, r, t.snap[0].last);
    }
  }

  // ---------------------------------------------------------------- every step keeps the invariant

  /** A repeated number starts the queue anew. */
  lemma {:induction false} FirstCame(lim: Limits, us: seq<Update>, cycles: seq<nat>, c: nat, q: Queue, i: nat)
    requires c < |cycles| && CameFrom(lim, us, cycles[c], q, i) && q == map[i := q[i]] && Prefix(q)
    ensures Came(lim, us, cycles, c, q, [c])
  {
  }

  /** One more snapshot message, from this cycle or a newer one, leaves a gap or extends the queue. */
  lemma {:induction false} MoreCame(
      lim: Limits, us: seq<Update>, cycles: seq<nat>, seen: nat, q: Queue, cs: seq<nat>, c: nat, i: nat, u: Update)
    requires Came(lim, us, cycles, seen, q, cs) && seen <= c < |cycles| && i !in q
    requires CameFrom(lim, us, cycles[c], q[i := u], i) && Prefix(q[i := u])
    ensures Came(lim, us, cycles, c, q[i := u], cs + [c])
  {
  }

  lemma {:induction false} QueuedCame(
      lim: Limits, us: seq<Update>, cycles: seq<nat>, seen: nat, q: Queue, cs: seq<nat>, c: nat, i: nat)
    requires Came(lim, us, cycles, seen, q, cs) && seen <= c < |cycles|
    requires cycles[c] <= |us| && i < |CycleAt(lim, us, cycles[c])|
    ensures var u := CycleAt(lim, us, cycles[c])[i];
            var q' := if i in q then map[i := u] else q[i := u];
            Prefix(q') ==> exists cs' :: Came(lim, us, cycles, c, q', cs')
  {
    var u := CycleAt(lim, us, cycles[c])[i];
    hide CycleAt, Came, Prefix;
    var q' := if i in q then map[i := u] else q[i := u];
    if Prefix(q') {
      assert CameFrom(lim, us, cycles[c], q', i);
      if i in q {
        FirstCame(lim, us, cycles, c, q', i);
      } else {
        MoreCame(lim, us, cycles, seen, q, cs, c, i, u);
      }
    }
  }

  /** A snapshot of nothing. */
  lemma {:induction false} EmptyCame(lim: Limits, us: seq<Update>, cycles: seq<nat>, seen: nat)
    ensures Came(lim, us, cycles, seen, map[], [])
  {
  }

  lemma {:induction false} CheckKeepsIncrementals(s: Net, t: State)
    requires IncOk(s.(consumer := t))
    ensures IncOk(s.(consumer := CheckSync(t)))
    ensures CheckSync(t).recovering ==> CheckSync(t).out == t.out
  {
  }

  /** The check that follows queueing. */
  lemma {:induction false} CheckKeepsInv(lim: Limits, s: Net, t: State, k: nat)
    requires WorldOk(lim, s) && t.recovering && IncOk(s.(consumer := t)) && MarkersAgree(t.snap)
    requires Prefix(t.snap) ==> SnapOk(lim, s.(consumer := t))
    requires Shows(lim, s.(consumer := t), k)
    ensures Inv(lim, s.(consumer := CheckSync(t))) && Emits(lim, s.published, t.out, CheckSync(t))
  {
    hide EmitsCycle;
    var r := CheckSync(t);
    var s' := s.(consumer := r);
    hide Fold, GoodStream, Came, Payload, RunEnd, NothingFrom, MarkersAgree, IdsBelow, Prefix;
    EmptyCame(lim, s.published, s.cycles, s.seen);
    assert SnapOk(lim, s');
    CheckKeepsIncrementals(s, t);
    assert !r.recovering ==> Complete(t.snap);
    hide CheckSync, IncOk, Complete;
    if r.recovering {
      assert Shows(lim, s', k);
    } else {
      var cs :| Came(lim, s.published, s.cycles, s.seen, t.snap, cs);
      AcceptShows(lim, s, t, cs);
    }
  }

  lemma {:induction false} PublishKeepsFrom(lim: Limits, us: seq<Update>, u: Update, m: nat, q: Queue, i: nat)
    requires CameFrom(lim, us, m, q, i)
    ensures CameFrom(lim, us + [u], m, q, i)
  {
    assert (us + [u])[..m] == us[..m];
  }

  lemma {:induction false} PublishKeepsCame(
      lim: Limits, us: seq<Update>, u: Update, cycles: seq<nat>, seen: nat, q: Queue, cs: seq<nat>)
    requires Came(lim, us, cycles, seen, q, cs)
    ensures Came(lim, us + [u], cycles, seen, q, cs)
  {
    hide CameFrom;
    forall i | 0 <= i < |cs| ensures CameFrom(lim, us + [u], cycles[cs[i]], q, i) {
      PublishKeepsFrom(lim, us, u, cycles[cs[i]], q, i);
    }
  }

  /** An update published later changes nothing that was said about earlier ones. */
  lemma {:induction false} PublishKeepsInv(lim: Limits, s: Net, u: Update)
    requires Inv(lim, s) && Enabled(lim, s, Publish(u))
    ensures Inv(lim, s.(published := s.published + [u]))
  {
    var us := s.published;
    var us' := us + [u];
    var s' := s.(published := us');
    assert us[..|us|] == us;
    GoodExtend(EmptyBooks(lim.tickers), us, u);
    hide GoodStream, Fold, FoldTables, StepOk, Cycle;
    assert forall m: nat | m <= |us| :: us'[..m] == us[..m];
    var cs :| Came(lim, us, s.cycles, s.seen, s.consumer.snap, cs);
    PublishKeepsCame(lim, us, u, s.cycles, s.seen, s.consumer.snap, cs);
    assert SnapOk(lim, s');
    hide Came;
    var k :| Shows(lim, s, k);
    assert Shows(lim, s', k);
  }

  lemma {:induction false} SendCycleKeepsInv(lim: Limits, s: Net)
    requires Inv(lim, s)
    ensures Inv(lim, s.(cycles := s.cycles + [s.synced]))
  {
    var s' := s.(cycles := s.cycles + [s.synced]);
    hide GoodStream, Fold, FoldTables, CycleAt, Cycle;
    var cs :| Came(lim, s.published, s.cycles, s.seen, s.consumer.snap, cs);
    assert Came(lim, s.published, s'.cycles, s.seen, s.consumer.snap, cs);
    var k :| Shows(lim, s, k);
    assert Shows(lim, s', k);
  }

  lemma {:induction false} BooksAtNext(lim: Limits, us: seq<Update>, out: seq<Update>, k: nat)
    requires k < |us| && Fold(EmptyBooks(lim.tickers), out) == BooksAt(lim, us, k)
    ensures Fold(EmptyBooks(lim.tickers), out + [us[k]]) == BooksAt(lim, us, k + 1)
  {
    hide Step, Fold;
    FoldOne(EmptyBooks(lim.tickers), out, us[k]);
    FoldOne(EmptyBooks(lim.tickers), us[..k], us[k]);
    assert us[..k + 1] == us[..k] + [us[k]];
  }

  /** The next expected incremental, outside recovery. */
  lemma {:induction false} InOrderKeepsInv(lim: Limits, s: Net)
    requires Inv(lim, s) && !s.consumer.recovering && s.consumer.next <= |s.published|
    ensures var t := s.consumer;
            Inv(lim, s.(consumer := t.(next := t.next + 1, out := t.out + [s.published[t.next - 1]])))
  {
    var us, t := s.published, s.consumer;
    var s' := s.(consumer := t.(next := t.next + 1, out := t.out + [us[t.next - 1]]));
    BooksAtNext(lim, us, t.out, t.next - 1);
    hide GoodStream, Fold, FoldTables, CycleAt, Cycle, Came;
    assert Shows(lim, s', t.next);
    assert SnapOk(lim, s');
  }

  lemma {:induction false} QueuedInc(s: Net, k: nat)
    requires IncOk(s) && 1 <= k <= |s.published| && !Marker(s.published[k - 1])
    ensures IncOk(s.(consumer := Queued(Recovering(s.consumer), false, k, s.published[k - 1])))
  {
  }

  lemma {:induction false} QueuedIncKeepsInv(lim: Limits, s: Net, k: nat)
    requires Inv(lim, s) && Enabled(lim, s, Incremental(k)) && Agreeing(lim, s, Incremental(k))
    requires s.consumer.recovering || k != s.consumer.next
    ensures var r := CheckSync(Queued(Recovering(s.consumer), false, k, s.published[k - 1]));
            Inv(lim, s.(consumer := r)) && Emits(lim, s.published, s.consumer.out, r)
  {
    hide EmitsCycle;
    var t := s.consumer;
    var u := s.published[k - 1];
    hide GoodStream, Fold, FoldTables, CycleAt, Cycle, Came, CheckSync, MarkersAgree;
    PublishedUnmarked(EmptyBooks(lim.tickers), s.published, k - 1);
    var q := Queued(Recovering(t), false, k, u);
    EmptyCame(lim, s.published, s.cycles, s.seen);
    var j :| Shows(lim, s, j);
    QueuedInc(s, k);
    hide IncOk, WorldOk, IsPublished;
    assert Shows(lim, s.(consumer := q), j);
    assert SnapOk(lim, s.(consumer := q));
    CheckKeepsInv(lim, s, q, j);
  }

  lemma {:induction false} IncrementalKeepsInv(lim: Limits, s: Net, k: nat)
    requires Inv(lim, s) && Enabled(lim, s, Incremental(k)) && Agreeing(lim, s, Incremental(k))
    ensures Inv(lim, After(lim, s, Incremental(k)))
    ensures s.consumer.recovering || k != s.consumer.next ==>
              Emits(lim, s.published, s.consumer.out, After(lim, s, Incremental(k)).consumer)
  {
    hide Emits, Inv, CheckSync, Agreeing, Queued;
    if s.consumer.recovering || k != s.consumer.next {
      QueuedIncKeepsInv(lim, s, k);
    } else {
      InOrderKeepsInv(lim, s);
    }
  }

  lemma {:induction false} SnapshotKeepsInv(lim: Limits, s: Net, c: nat, i: nat)
    requires Inv(lim, s) && Enabled(lim, s, SnapshotMsg(c, i)) && Agreeing(lim, s, SnapshotMsg(c, i))
    ensures Inv(lim, After(lim, s, SnapshotMsg(c, i)))
    ensures var r := After(lim, s, SnapshotMsg(c, i)).consumer;
            if s.consumer.recovering || i != s.consumer.next then Emits(lim, s.published, s.consumer.out, r)
            else r == s.consumer
  {
    hide EmitsCycle, GoodStream, Fold, CycleAt, CheckSync, MarkersAgree;
    var t := s.consumer;
    var u := CycleAt(lim, s.published, s.cycles[c])[i];
    EmptyCame(lim, s.published, s.cycles, s.seen);
    var j :| Shows(lim, s, j);
    var cs :| Came(lim, s.published, s.cycles, s.seen, s.consumer.snap, cs);
    if t.recovering || i != t.next {
      var t' := Recovering(t);
      var cs' := if t.recovering then cs else [];
      QueuedCame(lim, s.published, s.cycles, s.seen, t'.snap, cs', c, i);
      hide Came;
      var q := Queued(t', true, i, u);
      assert Shows(lim, s.(seen := c, consumer := q), j);
      CheckKeepsInv(lim, s.(seen := c), q, j);
    } else {
      var s' := s.(seen := c);
      assert Came(lim, s.published, s.cycles, c, s.consumer.snap, cs);
      assert Shows(lim, s', j);
    }
  }

  /** Whenever this message makes the consumer look at a complete snapshot, its markers agree. */
  ghost predicate Agreeing(lim: Limits, s: Net, e: Event)
    requires Enabled(lim, s, e)
  {
    match e
    case Incremental(k) =>
      s.consumer.recovering || k != s.consumer.next ==>
        MarkersAgree(Queued(Recovering(s.consumer), false, k, s.published[k - 1]).snap)
    case SnapshotMsg(c, i) =>
      s.consumer.recovering || i != s.consumer.next ==>
        MarkersAgree(Queued(Recovering(s.consumer), true, i, CycleAt(lim, s.published, s.cycles[c])[i]).snap)
    case _ => true
  }

  lemma {:induction false} StepKeepsInv(lim: Limits, s: Net, e: Event)
    requires Inv(lim, s) && Enabled(lim, s, e) && Agreeing(lim, s, e)
    ensures Inv(lim, After(lim, s, e))
  {
    match e
    case Publish(u) => PublishKeepsInv(lim, s, u);
    case Sync =>
      var s' := s.(synced := s.synced + 1);
      hide GoodStream, Fold, FoldTables, CycleAt, Cycle, Came;
      var k :| Shows(lim, s, k);
      assert Shows(lim, s', k);
      assert SnapOk(lim, s');
    case SendCycle => SendCycleKeepsInv(lim, s);
    case Incremental(k) => IncrementalKeepsInv(lim, s, k);
    case SnapshotMsg(c, i) => SnapshotKeepsInv(lim, s, c, i);
  }

  // ---------------------------------------------------------------- safety over whole runs

  /** The state after a run of events, if each of them can happen. */
  ghost function Exec(lim: Limits, es: seq<Event>): Option<Net> {
    if es == [] then Some(START)
    else
      match Exec(lim, es[..|es| - 1])
      case None => None
      case Some(s) => if Enabled(lim, s, es[|es| - 1]) then Some(After(lim, s, es[|es| - 1])) else None
  }

  ghost predicate AgreeingRun(lim: Limits, es: seq<Event>)
    requires Exec(lim, es).Some?
  {
    es == [] ||
    (AgreeingRun(lim, es[..|es| - 1]) && Agreeing(lim, Exec(lim, es[..|es| - 1]).value, es[|es| - 1]))
  }

  lemma {:induction false} StartInv(lim: Limits)
    ensures Inv(lim, START)
  {
    EmptyCame(lim, [], [], 0);
    assert Shows(lim, START, 0);
    assert SnapOk(lim, START);
  }

  /**
    Recovery safety. In every run in which each snapshot the consumer accepts carries one number in both
    its markers: outside recovery the emitted stream folds to exactly the exchange's books after
    incrementals 1 .. next - 1, and at any time to some past state of those books.
  */
  lemma {:induction false} RecoverySafe(lim: Limits, es: seq<Event>)
    requires Exec(lim, es).Some? && AgreeingRun(lim, es)
    ensures Inv(lim, Exec(lim, es).value)
  {
    if es == [] {
      StartInv(lim);
    } else {
      RecoverySafe(lim, es[..|es| - 1]);
      StepKeepsInv(lim, Exec(lim, es[..|es| - 1]).value, es[|es| - 1]);
    }
  }

  /** The START of a new cycle is not lost on a consumer that is part way through an older one. */
  ghost predicate StartKept(s: Net, e: Event) {
    e.SnapshotMsg? && s.consumer.recovering && s.consumer.snap != map[] && e.cycle != s.seen ==> e.offset == 0
  }

  ghost predicate StartsArrive(lim: Limits, es: seq<Event>)
    requires Exec(lim, es).Some?
  {
    es == [] ||
    (StartsArrive(lim, es[..|es| - 1]) && StartKept(Exec(lim, es[..|es| - 1]).value, es[|es| - 1]))
  }

  /** All of a queued snapshot comes from the cycle with number `m`. */
  ghost predicate AllFrom(lim: Limits, us: seq<Update>, m: nat, q: Queue) {
    forall i | i in q :: CameFrom(lim, us, m, q, i)
  }

  ghost predicate OneCycle(lim: Limits, s: Net) {
    s.consumer.snap != map[] ==>
      && s.consumer.recovering && s.seen < |s.cycles|
      && AllFrom(lim, s.published, s.cycles[s.seen], s.consumer.snap)
  }

  lemma {:induction false} AllFromAgrees(lim: Limits, us: seq<Update>, m: nat, q: Queue)
    requires AllFrom(lim, us, m, q)
    ensures MarkersAgree(q)
  {
    if Complete(q) {
      var n := |q| - 1;
      assert CameFrom(lim, us, m, q, 0) && CameFrom(lim, us, m, q, n);
      var ts := FoldTables(EmptyTables(lim.tickers), us[..m]);
      CycleShape(ts, lim.ids, m, 0);
      CycleShape(ts, lim.ids, m, n);
    }
  }

  lemma {:induction false} CheckKeepsQueue(t: State)
    requires t.recovering
    ensures var r := CheckSync(t); r.snap == map[] || (r.snap == t.snap && r.recovering)
  {
  }

  lemma {:induction false} SnapshotOneCycle(lim: Limits, s: Net, c: nat, i: nat)
    requires Inv(lim, s) && OneCycle(lim, s) && Enabled(lim, s, SnapshotMsg(c, i)) && StartKept(s, SnapshotMsg(c, i))
    ensures Agreeing(lim, s, SnapshotMsg(c, i)) && OneCycle(lim, After(lim, s, SnapshotMsg(c, i)))
  {
    var t := s.consumer;
    var us, m := s.published, s.cycles[c];
    var u := CycleAt(lim, us, m)[i];
    var cs :| Came(lim, us, s.cycles, s.seen, t.snap, cs);
    assert t.snap != map[] ==> 0 in t.snap;
    assert WorldOk(lim, s);
    hide WorldOk, IncOk, GoodStream, Fold, FoldTables, CycleAt, Cycle, CheckSync, Came, Faithful;
    var q := Queued(Recovering(t), true, i, u);
    if t.recovering || i != t.next {
      forall j | j in q.snap ensures CameFrom(lim, us, m, q.snap, j) {
        if j != i {
          assert CameFrom(lim, us, s.cycles[s.seen], t.snap, j);
        }
      }
      AllFromAgrees(lim, us, m, q.snap);
      CheckKeepsQueue(q);
    }
  }

  lemma {:induction false} IncrementalOneCycle(lim: Limits, s: Net, k: nat)
    requires OneCycle(lim, s) && Enabled(lim, s, Incremental(k))
    ensures Agreeing(lim, s, Incremental(k)) && OneCycle(lim, After(lim, s, Incremental(k)))
  {
    var t := s.consumer;
    hide Fold, FoldTables, CycleAt, Cycle, CheckSync;
    var q := Queued(Recovering(t), false, k, s.published[k - 1]);
    CheckKeepsQueue(q);
    if q.snap != map[] {
      AllFromAgrees(lim, s.published, s.cycles[s.seen], q.snap);
    }
  }

  lemma {:induction false} StepOneCycle(lim: Limits, s: Net, e: Event)
    requires Inv(lim, s) && OneCycle(lim, s) && Enabled(lim, s, e) && StartKept(s, e)
    ensures Agreeing(lim, s, e) && OneCycle(lim, After(lim, s, e))
  {
    match e
    case Publish(u) =>
      var us, us' := s.published, s.published + [u];
      if s.consumer.snap != map[] {
        hide CameFrom;
        forall i | i in s.consumer.snap ensures CameFrom(lim, us', s.cycles[s.seen], s.consumer.snap, i) {
          PublishKeepsFrom(lim, us, u, s.cycles[s.seen], s.consumer.snap, i);
        }
      }
    case Incremental(k) => IncrementalOneCycle(lim, s, k);
    case SnapshotMsg(c, i) => SnapshotOneCycle(lim, s, c, i);
    case _ =>
  }

  /**
    If no START is lost part way through a cycle, every accepted snapshot is one cycle; whatever
    else the network loses, repeats or reorders, recovery is then safe.
  */
  lemma {:induction false} StartsSuffice(lim: Limits, es: seq<Event>)
    requires Exec(lim, es).Some? && StartsArrive(lim, es)
    ensures AgreeingRun(lim, es) && Inv(lim, Exec(lim, es).value) && OneCycle(lim, Exec(lim, es).value)
  {
    if es == [] {
      StartInv(lim);
    } else {
      StartsSuffice(lim, es[..|es| - 1]);
      var s := Exec(lim, es[..|es| - 1]).value;
      StepOneCycle(lim, s, es[|es| - 1]);
      StepKeepsInv(lim, s, es[|es| - 1]);
    }
  }

  // ---------------------------------------------------------------- recovery completes

  /** The first `j` messages, queued. */
  function QueueOf(us: seq<Update>, j: nat): Queue
    requires j <= |us|
  {
    if j == 0 then map[] else QueueOf(us, j - 1)[j - 1 := us[j - 1]]
  }

  lemma {:induction false} QueueOfAt(us: seq<Update>, j: nat)
    requires j <= |us|
    ensures |QueueOf(us, j)| == j && Contiguous(QueueOf(us, j))
    ensures forall i | 0 <= i < j :: QueueOf(us, j)[i] == us[i]
  {
    if j > 0 {
      QueueOfAt(us, j - 1);
    }
  }

  lemma {:induction false} QueueOfPrefix(us: seq<Update>, j: nat)
    requires 0 < j <= |us| && us[0].SnapshotStart?
    ensures var q := QueueOf(us, j); Prefix(q) && |q| == j && q[j - 1] == us[j - 1]
  {
    QueueOfAt(us, j);
  }

  lemma {:induction false} DeliverNext(s: State, t: State, us: seq<Update>, j: nat)
    requires j < |us| && t.recovering && t.snap == QueueOf(us, j)
    requires DeliverAll(s, true, Numbered(us, 0)[..j]) == t
    ensures DeliverAll(s, true, Numbered(us, 0)[..j + 1]) == CheckSync(t.(snap := QueueOf(us, j + 1)))
  {
    var batch := Numbered(us, 0);
    QueueOfAt(us, j);
    hide CheckSync, Numbered, Contiguous;
    assert batch[..j + 1][..j] == batch[..j];
    assert batch[j] == (j, us[j]) by { NumberedIndex(us, 0, j); }
    assert j !in t.snap by { QueueOfAt(us, j); }
  }

  /** Part of a cycle, delivered in order to a recovering consumer with an empty snapshot queue. */
  lemma {:induction false} PartDelivered(s: State, ts: seq<Table>, n: nat, m: nat, j: nat)
    requires s.recovering && s.snap == map[] && j < |Cycle(ts, n, m)|
    ensures var us := Cycle(ts, n, m);
            DeliverAll(s, true, Numbered(us, 0)[..j]) == s.(snap := QueueOf(us, j))
  {
    var us := Cycle(ts, n, m);
    if j > 0 {
      PartDelivered(s, ts, n, m, j - 1);
      CycleShape(ts, n, m, j - 1);
      hide Cycle, Numbered, DeliverAll, Prefix, QueueOf;
      DeliverNext(s, s.(snap := QueueOf(us, j - 1)), us, j - 1);
      QueueOfPrefix(us, j);
    }
  }

  /**
    Recovery ends: a cycle delivered in full, with no gap in the incrementals queued beyond it,
    brings the consumer back, just past those incrementals.
  */
  lemma {:induction false} RecoveryCompletes(s: State, ts: seq<Table>, n: nat, m: nat)
    requires s.recovering && s.snap == map[] && NothingFrom(s.inc, RunEnd(s.inc, m + 1))
    ensures var r := DeliverAll(s, true, Numbered(Cycle(ts, n, m), 0));
            && !r.recovering && r.next == RunEnd(s.inc, m + 1)
            && r.out == s.out + Bodies(ts, n, |ts|) + Payload(s.inc, m + 1, r.next)
  {
    var us := Cycle(ts, n, m);
    var j := |us| - 1;
    hide Payload, DeliverAll, Prefix, QueueOf, NothingFrom, RunEnd;
    PartDelivered(s, ts, n, m, j);
    WholeQueue(ts, n, m);
    hide Cycle, Numbered, Bodies;
    DeliverNext(s, s.(snap := QueueOf(us, j)), us, j);
    assert Numbered(us, 0)[..j + 1] == Numbered(us, 0);
  }

  lemma {:induction false} WholeQueue(ts: seq<Table>, n: nat, m: nat)
    ensures var us := Cycle(ts, n, m);
            var q := QueueOf(us, |us|);
            && Prefix(q) && |q| == |us| && q[|q| - 1] == SnapshotEnd(m)
            && Payload(q, 0, |q|) == Bodies(ts, n, |ts|)
  {
    var us := Cycle(ts, n, m);
    CycleShape(ts, n, m, |us| - 1);
    var q := QueueOf(us, |us|);
    QueueOfAt(us, |us|);
    QueueOfPrefix(us, |us|);
    WholePayload(q, ts, n, m);
  }

  /** A caught-up consumer shows exactly the books the matching engine holds. */
  lemma {:induction false} CaughtUp(lim: Limits, es: seq<Event>, reqs: seq<Request>)
    requires Exec(lim, es).Some? && StartsArrive(lim, es) && LegalRun(lim.tickers, reqs)
    requires var s := Exec(lim, es).value;
             && s.published == Run(lim.tickers, reqs).upds
             && !s.consumer.recovering && s.consumer.next == |s.published| + 1
    ensures Fold(EmptyBooks(lim.tickers), Exec(lim, es).value.consumer.out) == PublicBooks(Run(lim.tickers, reqs).books)
  {
    hide GoodStream, Fold, SnapOk, IncOk, Run, LegalRun, PublicBooks, Exec, Matching.Inv, OneCycle;
    StartsSuffice(lim, es);
    FeedAgrees(lim.tickers, reqs);
    var s := Exec(lim, es).value;
    assert s.published[..|s.published|] == s.published;
  }
}
