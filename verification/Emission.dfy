/**
  What the consumer hands on, message by message and not only up to what it folds to: incrementals as they were
  published, trades included, and for each completed recovery the body of one snapshot cycle.
*/
module Emissions {
  import opened Types
  import opened Feed
  import opened Consumer
  import opened Recovery

  // ---------------------------------------------------------------- in order

  /** What reaches the consumer. */
  function Deliveries(es: seq<Event>): seq<Event> {
    if es == [] then []
    else
      var e := es[|es| - 1];
      Deliveries(es[..|es| - 1]) + if e.Incremental? || e.SnapshotMsg? then [e] else []
  }

  /** Incrementals `first`, `first + 1`, ..., one by one. */
  function Consecutive(first: nat, n: nat): seq<Event> {
    if n == 0 then [] else Consecutive(first, n - 1) + [Incremental(first + n - 1)]
  }

  lemma {:induction false} ConsecutiveIs(first: nat, n: nat)
    ensures |Consecutive(first, n)| == n
  {
    if n > 0 {
      ConsecutiveIs(first, n - 1);
    }
  }

  /** `out'` is `out` with `n` published incrementals behind it, from number `first` on. */
  ghost predicate Extends(out: seq<Update>, out': seq<Update>, us: seq<Update>, first: nat, n: nat) {
    && |out'| == |out| + n && out'[..|out|] == out
    && (n > 0 ==> 1 <= first && first + n - 1 <= |us| && out'[|out|..] == us[first - 1..first + n - 1])
  }

  lemma {:induction false} ExtendsMore(out: seq<Update>, out': seq<Update>, us: seq<Update>, first: nat, n: nat)
    requires Extends(out, out', us, first, n) && 1 <= first && first + n <= |us|
    ensures Extends(out, out' + [us[first + n - 1]], us, first, n + 1)
  {
    var w := out' + [us[first + n - 1]];
    assert w[..|out|] == out;
    assert w[|out|..] == out'[|out|..] + [us[first + n - 1]];
    assert us[first - 1..first + n] == us[first - 1..first + n - 1] + [us[first + n - 1]];
    assert n == 0 ==> us[first - 1..first + n - 1] == [];
  }

  lemma {:induction false} ExtendsLater(
      out: seq<Update>, out': seq<Update>, us: seq<Update>, u: Update, first: nat, n: nat)
    requires Extends(out, out', us, first, n)
    ensures Extends(out, out', us + [u], first, n)
  {
    if n > 0 {
      assert (us + [u])[first - 1..first + n - 1] == us[first - 1..first + n - 1];
    }
  }

  /** A consumer outside recovery that has been given `n` incrementals in order since `s`. */
  ghost predicate KeptUp(s: Net, s': Net, n: nat) {
    && !s'.consumer.recovering && s'.consumer.next == s.consumer.next + n
    && Extends(s.consumer.out, s'.consumer.out, s'.published, s.consumer.next, n)
  }

  lemma {:induction false} StepKeepsUp(lim: Limits, s: Net, s': Net, n: nat, e: Event)
    requires KeptUp(s, s', n) && Enabled(lim, s', e)
    requires e.Incremental? ==> e.k == s.consumer.next + n
    requires !e.SnapshotMsg?
    ensures KeptUp(s, After(lim, s', e), if e.Incremental? then n + 1 else n)
  {
    hide Extends, StepOk;
    match e
    case Publish(u) => ExtendsLater(s.consumer.out, s'.consumer.out, s'.published, u, s.consumer.next, n);
    case Incremental(k) =>
      ExtendsFirst(s, s', n);
      ExtendsMore(s.consumer.out, s'.consumer.out, s'.published, s.consumer.next, n);
    case _ =>
  }

  lemma {:induction false} ExtendsFirst(s: Net, s': Net, n: nat)
    requires KeptUp(s, s', n) && s.consumer.next + n >= 1
    ensures s.consumer.next >= 1
  {
  }

  /**
    Progress: outside recovery, incrementals that arrive in order are handed on as they are, one by one, whatever the
    exchange and the synthesizer do meanwhile. No assumption about earlier snapshots is needed.
  */
  lemma {:induction false} PassedOn(lim: Limits, es: seq<Event>, fs: seq<Event>, n: nat)
    requires Exec(lim, es).Some? && Exec(lim, es + fs).Some? && !Exec(lim, es).value.consumer.recovering
    requires Deliveries(fs) == Consecutive(Exec(lim, es).value.consumer.next, n)
    ensures KeptUp(Exec(lim, es).value, Exec(lim, es + fs).value, n)
    decreases |fs|
  {
    var s := Exec(lim, es).value;
    ConsecutiveIs(s.consumer.next, n);
    if fs == [] {
      assert es + fs == es;
    } else {
      var gs, e := fs[..|fs| - 1], fs[|fs| - 1];
      assert (es + fs)[..|es + fs| - 1] == es + gs;
      var m := if e.Incremental? then n - 1 else n;
      LastDelivered(fs, s.consumer.next, n);
      hide Deliveries, Consecutive, KeptUp, Enabled, After;
      PassedOn(lim, es, gs, m);
      StepKeepsUp(lim, s, Exec(lim, es + gs).value, m, e);
    }
  }

  lemma {:induction false} LastDelivered(fs: seq<Event>, first: nat, n: nat)
    requires fs != [] && Deliveries(fs) == Consecutive(first, n)
    ensures var e := fs[|fs| - 1];
            && !e.SnapshotMsg? && (e.Incremental? ==> n > 0 && e.k == first + n - 1)
            && Deliveries(fs[..|fs| - 1]) == Consecutive(first, if e.Incremental? then n - 1 else n)
  {
    var e, ds := fs[|fs| - 1], Deliveries(fs[..|fs| - 1]);
    if e.Incremental? || e.SnapshotMsg? {
      assert (ds + [e])[|ds|] == e;
      if n > 0 {
        var cs := Consecutive(first, n - 1);
        assert ds + [e] == cs + [Incremental(first + n - 1)];
        assert |ds| == |cs| && (cs + [Incremental(first + n - 1)])[|cs|] == Incremental(first + n - 1);
        assert ds == (ds + [e])[..|ds|] == cs;
      }
    }
  }

  /** From the start: incrementals 1, 2, ..., n in order are emitted as published, and recovery is never entered. */
  lemma {:induction false} InOrderFromStart(lim: Limits, es: seq<Event>, n: nat)
    requires Exec(lim, es).Some? && Deliveries(es) == Consecutive(1, n)
    ensures var s := Exec(lim, es).value;
            && !s.consumer.recovering && s.consumer.next == n + 1
            && n <= |s.published| && s.consumer.out == s.published[..n]
  {
    assert Exec(lim, []) == Some(START) && [] + es == es;
    PassedOn(lim, [], es, n);
    var s := Exec(lim, es).value;
    assert s.consumer.out[0..] == s.consumer.out;
  }

  // ---------------------------------------------------------------- what waits

  /** A queued snapshot is a gapless beginning of a cycle without its END: anything else is accepted or discarded. */
  ghost predicate Unfinished(q: Queue) {
    q == map[] || (Prefix(q) && !q[|q| - 1].SnapshotEnd?)
  }

  /** The incrementals that have come since the recovery under way began. */
  ghost function Since(lim: Limits, es: seq<Event>): set<nat>
    requires Exec(lim, es).Some?
  {
    if es == [] || !Exec(lim, es).value.consumer.recovering then {}
    else
      var before, e := es[..|es| - 1], es[|es| - 1];
      Since(lim, before) + if e.Incremental? then {e.k} else {}
  }

  /**
    Where a check leaves the consumer: with a complete snapshot, at the first incremental that is missing behind it,
    and still in recovery exactly when one beyond that is queued; otherwise where it was.
  */
  lemma {:induction false} NextIsMissing(t: State)
    requires t.recovering
    ensures var r := CheckSync(t);
            if Complete(t.snap) then
              var last := t.snap[|t.snap| - 1].last;
              && last < r.next && r.next !in t.inc && (forall k | last < k < r.next :: k in t.inc)
              && (r.recovering <==> exists k :: k in t.inc && k > r.next)
            else r.recovering && r.next == t.next && r.out == t.out
  {
    hide Payload;
    if Complete(t.snap) {
      var b := RunEnd(t.inc, t.snap[|t.snap| - 1].last + 1);
      hide RunEnd, Contiguous;
      assert !NothingFrom(t.inc, b) <==> exists k :: k in t.inc && k > b;
    }
  }

  lemma {:induction false} CheckQueues(t: State)
    requires t.recovering
    ensures var r := CheckSync(t);
            && Unfinished(r.snap) && (if r.recovering then r.inc == t.inc else r.snap == map[] == r.inc)
  {
    hide Payload, RunEnd, NothingFrom, Contiguous;
  }

  lemma {:induction false} DeliverQueues(s: State, isSnapshot: bool, k: nat, u: Update)
    requires Unfinished(s.snap) && (!s.recovering ==> s.snap == map[] == s.inc)
    ensures var r := Deliver(s, isSnapshot, k, u);
            && Unfinished(r.snap) && (!r.recovering ==> r.snap == map[] == r.inc)
            && (r.recovering ==> r.inc == if isSnapshot then s.inc else s.inc[k := u])
  {
    hide CheckSync, Unfinished;
    var t := Queued(Recovering(s), isSnapshot, k, u);
    CheckQueues(t);
  }

  /** No whole snapshot waits, nothing waits outside recovery, and the incrementals that wait are these. */
  ghost predicate Waiting(s: Net, ks: set<nat>) {
    && Unfinished(s.consumer.snap) && (!s.consumer.recovering ==> s.consumer.snap == map[] == s.consumer.inc)
    && s.consumer.inc.Keys == ks
    && forall k | k in s.consumer.inc :: 1 <= k <= |s.published| && s.consumer.inc[k] == s.published[k - 1]
  }

  lemma {:induction false} StepWaits(lim: Limits, s: Net, e: Event, ks: set<nat>)
    requires Waiting(s, ks) && Enabled(lim, s, e)
    ensures var s' := After(lim, s, e);
            Waiting(s', if s'.consumer.recovering then ks + (if e.Incremental? then {e.k} else {}) else {})
  {
    hide Unfinished, Deliver, CycleAt, StepOk;
    match e
    case Incremental(k) => DeliverQueues(s.consumer, false, k, s.published[k - 1]);
    case SnapshotMsg(c, i) => DeliverQueues(s.consumer, true, i, CycleAt(lim, s.published, s.cycles[c])[i]);
    case _ =>
  }

  /**
    In every run: no whole snapshot ever waits, nothing waits outside recovery, and while it recovers the consumer
    keeps exactly the incrementals that have come since, as they were published.
  */
  lemma {:induction false} WaitsExactly(lim: Limits, es: seq<Event>)
    requires Exec(lim, es).Some?
    ensures Waiting(Exec(lim, es).value, Since(lim, es))
  {
    if es != [] {
      var before := es[..|es| - 1];
      WaitsExactly(lim, before);
      hide Waiting, Enabled, After;
      StepWaits(lim, Exec(lim, before).value, es[|es| - 1], Since(lim, before));
    }
  }

  // ---------------------------------------------------------------- any run

  /** A completed recovery: the cycle sent after `cycle` incrementals, and the incrementals behind it up to `upto`. */
  datatype Stretch = Stretch(cycle: nat, upto: nat)

  ghost predicate Published(us: seq<Update>, first: nat, ss: seq<Stretch>) {
    first <= |us| && forall i | 0 <= i < |ss| :: ss[i].cycle <= ss[i].upto <= |us|
  }

  /** The first `first` incrementals, then stretch after stretch. */
  ghost function Emission(lim: Limits, us: seq<Update>, first: nat, ss: seq<Stretch>): seq<Update>
    requires Published(us, first, ss)
  {
    if ss == [] then us[..first]
    else
      var s := ss[|ss| - 1];
      Emission(lim, us, first, ss[..|ss| - 1]) + BodyAt(lim, us, s.cycle) + us[s.cycle..s.upto]
  }

  function Upto(first: nat, ss: seq<Stretch>): nat {
    if ss == [] then first else ss[|ss| - 1].upto
  }

  /** The emitted stream, literally; outside recovery it ends with the incremental before the next expected one. */
  ghost predicate Literally(lim: Limits, s: Net, first: nat, ss: seq<Stretch>) {
    && Published(s.published, first, ss)
    && s.consumer.out == Emission(lim, s.published, first, ss)
    && (!s.consumer.recovering ==> s.consumer.next == Upto(first, ss) + 1)
  }

  /** How many recoveries a run completes. */
  ghost function Recoveries(lim: Limits, es: seq<Event>): nat
    requires Exec(lim, es).Some?
  {
    if es == [] then 0
    else
      var before := es[..|es| - 1];
      Recoveries(lim, before)
      + if Exec(lim, before).value.consumer.recovering && !Exec(lim, es).value.consumer.recovering then 1 else 0
  }

  lemma {:induction false} EmissionLater(lim: Limits, us: seq<Update>, u: Update, first: nat, ss: seq<Stretch>)
    requires Published(us, first, ss)
    ensures Published(us + [u], first, ss) && Emission(lim, us + [u], first, ss) == Emission(lim, us, first, ss)
  {
    var us' := us + [u];
    if ss == [] {
      assert us'[..first] == us[..first];
    } else {
      var s := ss[|ss| - 1];
      EmissionLater(lim, us, u, first, ss[..|ss| - 1]);
      assert us'[..s.cycle] == us[..s.cycle] && us'[s.cycle..s.upto] == us[s.cycle..s.upto];
    }
  }

  /** One more incremental in order makes the last stretch one longer. */
  lemma {:induction false} EmissionLonger(lim: Limits, us: seq<Update>, first: nat, ss: seq<Stretch>)
      returns (first': nat, ss': seq<Stretch>)
    requires Published(us, first, ss) && Upto(first, ss) < |us|
    ensures Published(us, first', ss') && |ss'| == |ss| && Upto(first', ss') == Upto(first, ss) + 1
    ensures Emission(lim, us, first', ss') == Emission(lim, us, first, ss) + [us[Upto(first, ss)]]
  {
    if ss == [] {
      first', ss' := first + 1, ss;
      assert us[..first + 1] == us[..first] + [us[first]];
    } else {
      var s, before := ss[|ss| - 1], ss[..|ss| - 1];
      first', ss' := first, before + [s.(upto := s.upto + 1)];
      assert ss'[..|ss'| - 1] == before && ss == before + [s];
      assert us[s.cycle..s.upto + 1] == us[s.cycle..s.upto] + [us[s.upto]];
      hide BodyAt;
      Regroup(Emission(lim, us, first, before), BodyAt(lim, us, s.cycle), us[s.cycle..s.upto], us[s.upto]);
    }
  }

  lemma {:induction false} Regroup(a: seq<Update>, b: seq<Update>, c: seq<Update>, u: Update)
    ensures a + b + (c + [u]) == a + b + c + [u]
  {
  }

  /** A completed recovery is one more stretch. */
  lemma {:induction false} EmissionRecovered(
      lim: Limits, us: seq<Update>, first: nat, ss: seq<Stretch>, r: State, m: nat)
    requires Published(us, first, ss) && EmitsCycle(lim, us, Emission(lim, us, first, ss), r, m)
    ensures var ss' := ss + [Stretch(m, r.next - 1)];
            && Published(us, first, ss') && r.out == Emission(lim, us, first, ss') && r.next == Upto(first, ss') + 1
  {
    var ss' := ss + [Stretch(m, r.next - 1)];
    assert ss'[..|ss|] == ss;
  }

  lemma {:induction false} StepLiteral(lim: Limits, s: Net, e: Event, first: nat, ss: seq<Stretch>)
      returns (first': nat, ss': seq<Stretch>)
    requires Inv(lim, s) && Enabled(lim, s, e) && Agreeing(lim, s, e) && Literally(lim, s, first, ss)
    ensures var s' := After(lim, s, e);
            && Literally(lim, s', first', ss')
            && |ss'| == |ss| + if s.consumer.recovering && !s'.consumer.recovering then 1 else 0
  {
    hide Emission, EmitsCycle, CheckSync, CycleAt, GoodStream, SnapOk, IncOk, Faithful, StepOk, MarkersAgree;
    first', ss' := first, ss;
    match e
    case Publish(u) => EmissionLater(lim, s.published, u, first, ss);
    case Incremental(k) =>
      if s.consumer.recovering || k != s.consumer.next {
        IncrementalKeepsInv(lim, s, k);
        ss' := CheckLiteral(lim, s, After(lim, s, e).consumer, first, ss);
        if k != s.consumer.next {
          NeverAtOnce(s.consumer, false, k, s.published[k - 1]);
        }
      } else {
        first', ss' := EmissionLonger(lim, s.published, first, ss);
      }
    case SnapshotMsg(c, i) =>
      SnapshotKeepsInv(lim, s, c, i);
      if s.consumer.recovering || i != s.consumer.next {
        ss' := CheckLiteral(lim, s, After(lim, s, e).consumer, first, ss);
        if i != s.consumer.next {
          NeverAtOnce(s.consumer, true, i, CycleAt(lim, s.published, s.cycles[c])[i]);
        }
      }
    case _ =>
  }

  /** The consumer after a check, given what it had emitted before. */
  lemma {:induction false} CheckLiteral(lim: Limits, s: Net, r: State, first: nat, ss: seq<Stretch>)
      returns (ss': seq<Stretch>)
    requires Published(s.published, first, ss) && s.consumer.out == Emission(lim, s.published, first, ss)
    requires Emits(lim, s.published, s.consumer.out, r)
    ensures Published(s.published, first, ss') && r.out == Emission(lim, s.published, first, ss')
    ensures !r.recovering ==> r.next == Upto(first, ss') + 1
    ensures |ss'| == |ss| + if r.recovering then 0 else 1
  {
    hide Emission, EmitsCycle;
    ss' := ss;
    if !r.recovering {
      var m: nat :| EmitsCycle(lim, s.published, s.consumer.out, r, m);
      EmissionRecovered(lim, s.published, first, ss, r, m);
      ss' := ss + [Stretch(m, r.next - 1)];
    }
  }

  /** The message that starts a recovery does not end it. */
  lemma {:induction false} NeverAtOnce(s: State, isSnapshot: bool, k: nat, u: Update)
    requires k != s.next
    ensures !s.recovering ==> Deliver(s, isSnapshot, k, u).recovering
  {
  }

  /**
    Literal emission, in every run whose accepted snapshots have agreeing markers: a prefix of the published stream
    while no recovery has completed, and then for each recovery the body of its cycle followed by a slice of the
    published stream that begins where the cycle was sent.
  */
  lemma {:induction false} EmittedLiterally(lim: Limits, es: seq<Event>) returns (first: nat, ss: seq<Stretch>)
    requires Exec(lim, es).Some? && AgreeingRun(lim, es)
    ensures Literally(lim, Exec(lim, es).value, first, ss) && |ss| == Recoveries(lim, es)
  {
    hide Inv, Enabled, After, Agreeing, Emission;
    if es == [] {
      first, ss := 0, [];
      NothingEmitted(lim);
    } else {
      var before := es[..|es| - 1];
      first, ss := EmittedLiterally(lim, before);
      RecoverySafe(lim, before);
      first, ss := StepLiteral(lim, Exec(lim, before).value, es[|es| - 1], first, ss);
    }
  }

  lemma {:induction false} NothingEmitted(lim: Limits)
    ensures Emission(lim, [], 0, []) == []
  {
  }
}
