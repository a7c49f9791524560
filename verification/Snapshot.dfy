/**
  The snapshot synthesizer keeps one table of live orders per ticker, indexed by market order id, and
  publishes it in id order. Replaying such a listing rebuilds every queue of the exchange's book.
*/
module Snapshot {
  import opened Types
  import opened PriceTime
  import opened Feed
  import opened MemPools
  import opened Rings

  type Table = map<nat, Order<()>>

  function ApplyTable(t: Table, u: Update): Table {
    match u
    case Add(id, _, _, _, _, _) => t[id := Added(u)]
    case Modify(id, _, _, price, qty, _) => if id in t then t[id := t[id].(qty := qty, price := price)] else t
    case Cancel(id, _, _, _, _, _) => t - {id}
    case _ => t
  }

  function StepTables(ts: seq<Table>, u: Update): (r: seq<Table>)
    ensures |r| == |ts|
  {
    if HasTicker(u, |ts|) then ts[u.ticker := ApplyTable(ts[u.ticker], u)] else ts
  }

  function FoldTables(ts: seq<Table>, us: seq<Update>): (r: seq<Table>)
    ensures |r| == |ts|
  {
    if us == [] then ts else StepTables(FoldTables(ts, us[..|us| - 1]), us[|us| - 1])
  }

  function EmptyTables(n: nat): (r: seq<Table>)
    ensures |r| == n && forall t | 0 <= t < n :: r[t] == map[]
  {
    seq(n, _ => map[])
  }

  /** The table's orders of one side are exactly those of `s`. */
  ghost predicate HoldsHalf(s: seq<Order<()>>, t: Table, side: Side) {
    && (forall i | 0 <= i < |s| :: s[i].side == side && s[i].id in t && t[s[i].id] == s[i])
    && (forall id | id in t && t[id].side == side :: t[id] in s)
  }

  ghost predicate Keyed(t: Table) {
    forall id | id in t :: t[id].id == id
  }

  /** The table holds exactly the orders of the book. */
  ghost predicate Holds(b: PublicBook, t: Table) {
    Keyed(t) && HoldsHalf(b.bids, t, Buy) && HoldsHalf(b.asks, t, Sell)
  }

  /** The assertions `addToSnapshot` makes about an update. */
  predicate Acceptable(t: Table, u: Update) {
    match u
    case Add(id, _, _, _, _, _) => id !in t
    case Modify(id, _, side, _, _, _) => id in t && t[id].id == id && t[id].side == side
    case Cancel(id, _, side, _, _, _) => id in t && t[id].id == id && t[id].side == side
    case _ => true
  }

  /** None of the synthesizer's assertions fires on a well-formed update. */
  lemma {:induction false} WellFormedAcceptable(b: PublicBook, t: Table, u: Update)
    requires Holds(b, t) && WellFormed(b, u)
    ensures Acceptable(t, u)
  {
  }

  /** A half none of whose orders has the changed id. */
  lemma {:induction false} HoldsOther(s: seq<Order<()>>, t: Table, t': Table, side: Side, id: nat)
    requires HoldsHalf(s, t, side) && forall i | 0 <= i < |s| :: s[i].id != id
    requires t' - {id} == t - {id} && (id in t' ==> t'[id].side != side)
    ensures HoldsHalf(s, t', side)
  {
    forall k: nat | k != id ensures (k in t' <==> k in t) && (k in t ==> t'[k] == t[k]) {
      assert k in t' <==> k in t' - {id};
      assert k in t <==> k in t - {id};
      assert k in t ==> (t' - {id})[k] == t'[k] && (t - {id})[k] == t[k];
    }
  }

  lemma {:induction false} HoldsInsert(s: seq<Order<()>>, t: Table, o: Order<()>)
    requires HoldsHalf(s, t, o.side) && o.id !in t
    ensures HoldsHalf(Insert(s, o), t[o.id := o], o.side)
  {
  }

  lemma {:induction false} HoldsAdd(b: PublicBook, t: Table, o: Order<()>)
    requires Holds(b, t) && o.id !in t
    ensures Holds(Inserted(b, o), t[o.id := o])
  {
    var t' := t[o.id := o];
    assert t' - {o.id} == t - {o.id};
    HoldsInsert(Half(b, o.side), t, o);
    HoldsOther(Half(b, Opposite(o.side)), t, t', Opposite(o.side), o.id);
  }

  lemma {:induction false} HoldsSetQty(s: seq<Order<()>>, t: Table, side: Side, k: nat, qty: nat)
    requires Keyed(t) && HoldsHalf(s, t, side) && HalfSound(side, s) && k < |s|
    ensures var o := s[k].(qty := qty); HoldsHalf(s[k := o], t[o.id := o], side)
  {
    var o := s[k].(qty := qty);
    var s' := s[k := o];
    forall i | 0 <= i < |s| && i != k ensures s[i].id != o.id {
      assert if i < k then Distinct(s[i], s[k]) else Distinct(s[k], s[i]);
    }
    forall id | id in t && t[id].side == side && id != o.id ensures t[id] in s' {
      var i :| 0 <= i < |s| && s[i] == t[id];
      assert s'[i] == t[id];
    }
    assert s'[k] == o;
  }

  lemma {:induction false} HoldsWithout(s: seq<Order<()>>, t: Table, side: Side, k: nat)
    requires Keyed(t) && HoldsHalf(s, t, side) && HalfSound(side, s) && k < |s|
    ensures HoldsHalf(Without(s, k), t - {s[k].id}, side)
  {
  }

  /** The opposite half never holds the named order. */
  lemma {:induction false} OtherIds(b: PublicBook, side: Side, k: nat)
    requires BookOk(b) && k < |Half(b, side)|
    ensures var opp := Half(b, Opposite(side)); forall i | 0 <= i < |opp| :: opp[i].id != Half(b, side)[k].id
  {
  }

  lemma {:induction false} HoldsRequantified(b: PublicBook, t: Table, side: Side, k: nat, qty: nat)
    requires BookOk(b) && Holds(b, t) && k < |Half(b, side)|
    ensures var o := Half(b, side)[k].(qty := qty); Holds(Requantified(b, side, k, qty), t[o.id := o])
  {
    var s := Half(b, side);
    var o := s[k].(qty := qty);
    assert o.side == side;
    assert HalfSound(side, s);
    OtherIds(b, side, k);
    hide BookOk, HalfSound;
    HoldsSetQty(s, t, side, k, qty);
    hide HoldsHalf;
    var t' := t[o.id := o];
    assert t' - {o.id} == t - {o.id};
    HoldsOther(Half(b, Opposite(side)), t, t', Opposite(side), o.id);
  }

  lemma {:induction false} HoldsModify(b: PublicBook, t: Table, u: Update)
    requires BookOk(b) && Holds(b, t) && u.Modify? && WellFormed(b, u)
    ensures Holds(Apply(b, u), ApplyTable(t, u))
  {
    var s := Half(b, u.side);
    var k := Find(s, u.id);
    assert t[u.id] == s[k];
    HoldsRequantified(b, t, u.side, k, u.qty);
  }

  lemma {:induction false} HoldsCancel(b: PublicBook, t: Table, u: Update)
    requires BookOk(b) && Holds(b, t) && u.Cancel? && WellFormed(b, u)
    ensures Holds(Apply(b, u), ApplyTable(t, u))
  {
    var s := Half(b, u.side);
    var k := Find(s, u.id);
    var t' := ApplyTable(t, u);
    assert t' - {u.id} == t - {u.id};
    assert HalfSound(u.side, s);
    assert s[k].id == u.id && u.id in t;
    hide WellFormed, HalfSound, HoldsHalf;
    OtherIds(b, u.side, k);
    hide BookOk;
    HoldsWithout(s, t, u.side, k);
    HoldsOther(Half(b, Opposite(u.side)), t, t', Opposite(u.side), u.id);
  }

  lemma {:induction false} HoldsStep(b: PublicBook, t: Table, u: Update)
    requires BookOk(b) && Holds(b, t) && WellFormed(b, u)
    ensures Holds(Apply(b, u), ApplyTable(t, u))
  {
    WellFormedAcceptable(b, t, u);
    if u.Add? {
      HoldsAdd(b, t, Added(u));
    } else if u.Modify? {
      HoldsModify(b, t, u);
    } else if u.Cancel? {
      HoldsCancel(b, t, u);
    }
  }

  ghost predicate AllHold(bs: seq<PublicBook>, ts: seq<Table>) {
    |ts| == |bs| && forall i | 0 <= i < |bs| :: Holds(bs[i], ts[i])
  }

  /** Over any good stream the synthesizer's tables hold exactly the public books, and its assertions never fire. */
  lemma {:induction false} TablesFollow(n: nat, us: seq<Update>)
    requires GoodStream(EmptyBooks(n), us)
    ensures AllHold(Fold(EmptyBooks(n), us), FoldTables(EmptyTables(n), us))
    ensures BooksOk(Fold(EmptyBooks(n), us))
  {
    if us == [] {
    } else {
      var before := us[..|us| - 1];
      var u := us[|us| - 1];
      TablesFollow(n, before);
      hide Holds, BookOk, WellFormed, Apply, ApplyTable;
      var bs := Fold(EmptyBooks(n), before);
      var ts := FoldTables(EmptyTables(n), before);
      HoldsStep(bs[u.ticker], ts[u.ticker], u);
      ApplyKeepsOk(bs[u.ticker], u);
    }
  }

  /** At every point of a good stream, the next update passes all assertions of the synthesizer. */
  lemma {:induction false} NeverAsserts(n: nat, us: seq<Update>, k: nat)
    requires GoodStream(EmptyBooks(n), us) && k < |us|
    ensures HasTicker(us[k], n) && Acceptable(FoldTables(EmptyTables(n), us[..k])[us[k].ticker], us[k])
  {
    hide Fold, FoldTables, Holds, WellFormed, Acceptable, BookOk;
    GoodPrefix(EmptyBooks(n), us, k + 1);
    assert us[..k + 1][..k] == us[..k] && us[..k + 1][k] == us[k];
    var bs := Fold(EmptyBooks(n), us[..k]);
    assert StepOk(bs, us[k]);
    hide GoodStream;
    TablesFollow(n, us[..k]);
    var ts := FoldTables(EmptyTables(n), us[..k]);
    WellFormedAcceptable(bs[us[k].ticker], ts[us[k].ticker], us[k]);
  }

  // ---------------------------------------------------------------- the published listing

  function AddOf(o: Order<()>, ticker: nat): Update {
    Add(o.id, ticker, o.side, o.price, o.qty, o.priority)
  }

  /** The ADDs for ids below `n`, in ascending id order. */
  function Listing(t: Table, ticker: nat, n: nat): seq<Update> {
    if n == 0 then []
    else Listing(t, ticker, n - 1) + if n - 1 in t then [AddOf(t[n - 1], ticker)] else []
  }

  /** The first `k` tickers of a snapshot cycle: each a CLEAR followed by its listing. */
  function Bodies(ts: seq<Table>, n: nat, k: nat): seq<Update>
    requires k <= |ts|
  {
    if k == 0 then [] else Bodies(ts, n, k - 1) + ([Clear(k - 1)] + Listing(ts[k - 1], k - 1, n))
  }

  /** A whole cycle; message number `i` of the cycle carries sequence number `i`. */
  function Cycle(ts: seq<Table>, n: nat, last: nat): seq<Update> {
    [SnapshotStart(last)] + Bodies(ts, n, |ts|) + [SnapshotEnd(last)]
  }

  /** The part of a table below `n`. */
  ghost function Part(t: Table, n: nat): Table {
    map id | id in t && id < n :: t[id]
  }

  ghost predicate InOrder(b: PublicBook) {
    Sorted(Buy, b.bids) && Sorted(Sell, b.asks)
  }

  lemma {:induction false} PartAdd(b: PublicBook, t: Table, n: nat)
    requires InOrder(b) && Holds(b, Part(t, n)) && n in t && t[n].id == n
    ensures InOrder(Inserted(b, t[n])) && Holds(Inserted(b, t[n]), Part(t, n + 1))
  {
    assert Part(t, n + 1) == Part(t, n)[n := t[n]];
    HoldsAdd(b, Part(t, n), t[n]);
    InsertSorted(t[n].side, Half(b, t[n].side), t[n]);
  }

  lemma {:induction false} NothingListed(t: Table)
    ensures InOrder(EMPTY_BOOK) && Holds(EMPTY_BOOK, Part(t, 0))
  {
  }

  lemma {:induction false} PartSame(t: Table, n: nat)
    requires n > 0 && n - 1 !in t
    ensures Part(t, n) == Part(t, n - 1)
  {
  }

  lemma {:induction false} FoldOne(bs: seq<PublicBook>, us: seq<Update>, u: Update)
    ensures Fold(bs, us + [u]) == Step(Fold(bs, us), u)
  {
  }

  /** One ADD changes the book of its ticker only. */
  lemma {:induction false} StepAdd(bs: seq<PublicBook>, cs: seq<PublicBook>, o: Order<()>, k: nat)
    requires k < |bs| == |cs| && cs == bs[k := cs[k]]
    ensures var r := Step(cs, AddOf(o, k)); r == bs[k := r[k]] && r[k] == Inserted(cs[k], o)
  {
    var u := AddOf(o, k);
    assert o.owner == ();
    assert Added(u) == o;
    assert Apply(cs[k], u) == Inserted(cs[k], o);
    hide Apply, Inserted;
  }

  /** Replaying a listing on a cleared book collects the table in matching order. */
  lemma {:induction false} ListingFold(bs: seq<PublicBook>, t: Table, k: nat, n: nat)
    requires k < |bs| && bs[k] == EMPTY_BOOK && Keyed(t)
    ensures var r := Fold(bs, Listing(t, k, n)); r == bs[k := r[k]] && InOrder(r[k]) && Holds(r[k], Part(t, n))
  {
    hide Step, Fold, InOrder, Holds, Part;
    if n == 0 {
      NothingFolds(bs);
      NothingListed(t);
      assert bs[k := bs[k]] == bs;
    } else {
      ListingFold(bs, t, k, n - 1);
      var us := Listing(t, k, n - 1);
      var cs := Fold(bs, us);
      if n - 1 in t {
        PartAdd(cs[k], t, n - 1);
        StepAdd(bs, cs, t[n - 1], k);
        FoldOne(bs, us, AddOf(t[n - 1], k));
      } else {
        assert us + [] == us;
        PartSame(t, n);
      }
    }
  }

  lemma {:induction false} ListedWellFormed(b: PublicBook, c: PublicBook, t: Table, k: nat, n: nat)
    requires BookOk(b) && Holds(b, t) && Holds(c, Part(t, n)) && n in t
    ensures WellFormed(c, AddOf(t[n], k))
  {
  }

  /**
    After CLEAR on an empty book, a late joiner's replica may take every ADD of a listing: each carries an id
    above all live ones and crosses nothing, as on the incremental feed.
  */
  lemma {:induction false} ListingGood(bs: seq<PublicBook>, t: Table, k: nat, n: nat, b: PublicBook)
    requires k < |bs| && bs[k] == EMPTY_BOOK && BookOk(b) && Holds(b, t)
    ensures GoodStream(bs, Listing(t, k, n))
  {
    if n > 0 {
      ListingGood(bs, t, k, n - 1, b);
      hide Holds, BookOk, GoodStream;
      var us := Listing(t, k, n - 1);
      if n - 1 in t {
        ListingGoodMore(bs, t, k, n - 1, b);
      } else {
        assert us + [] == us;
      }
    }
  }

  lemma {:induction false} ListingGoodMore(bs: seq<PublicBook>, t: Table, k: nat, n: nat, b: PublicBook)
    requires k < |bs| && bs[k] == EMPTY_BOOK && BookOk(b) && Holds(b, t) && n in t
    requires GoodStream(bs, Listing(t, k, n))
    ensures GoodStream(bs, Listing(t, k, n) + [AddOf(t[n], k)])
  {
    KeyedOf(b, t);
    var us := Listing(t, k, n);
    hide Holds, BookOk, WellFormed, Fold, GoodStream, Listing, Part, InOrder;
    ListingFold(bs, t, k, n);
    ListedWellFormed(b, Fold(bs, us)[k], t, k, n);
    GoodExtend(bs, us, AddOf(t[n], k));
  }

  /** A book in matching order is determined by its table. */
  lemma {:induction false} HoldsUnique(b: PublicBook, c: PublicBook, t: Table)
    requires InOrder(b) && InOrder(c) && Holds(b, t) && Holds(c, t)
    ensures b == c
  {
    SortedUnique(Buy, b.bids, c.bids);
    SortedUnique(Sell, b.asks, c.asks);
  }

  /** After a ticker's CLEAR and listing its book is the exchange's, whatever it was before. */
  lemma {:induction false} TickerReplay(bs: seq<PublicBook>, t: Table, k: nat, n: nat, b: PublicBook)
    requires k < |bs| && BookOk(b) && Holds(b, t) && forall id | id in t :: id < n
    ensures Fold(bs, [Clear(k)] + Listing(t, k, n)) == bs[k := b]
  {
    var cs := Fold(bs, [Clear(k)]);
    FoldOne(bs, [], Clear(k));
    assert [] + [Clear(k)] == [Clear(k)];
    assert cs == bs[k := EMPTY_BOOK];
    assert InOrder(b);
    assert Part(t, n) == t;
    hide InOrder, Holds, BookOk, Fold, Step, Listing, Part;
    FoldConcat(bs, [Clear(k)], Listing(t, k, n));
    ListingFold(cs, t, k, n) by { assert Keyed(t) by { KeyedOf(b, t); } }
    HoldsUnique(Fold(cs, Listing(t, k, n))[k], b, t);
  }

  lemma {:induction false} KeyedOf(b: PublicBook, t: Table)
    requires Holds(b, t)
    ensures Keyed(t)
  {
  }

  ghost predicate Below(ts: seq<Table>, n: nat) {
    forall i, id | 0 <= i < |ts| && id in ts[i] :: id < n
  }

  lemma {:induction false} NextTicker(bs: seq<PublicBook>, target: seq<PublicBook>, k: nat)
    requires |bs| == |target| && 0 < k <= |bs|
    ensures (target[..k - 1] + bs[k - 1..])[k - 1 := target[k - 1]] == target[..k] + bs[k..]
  {
  }

  lemma {:induction false} BodiesReplay(bs: seq<PublicBook>, ts: seq<Table>, n: nat, k: nat, target: seq<PublicBook>)
    requires |bs| == |ts| == |target| && k <= |ts| && AllHold(target, ts) && BooksOk(target) && Below(ts, n)
    ensures Fold(bs, Bodies(ts, n, k)) == target[..k] + bs[k..]
  {
    hide Fold, Holds, BookOk, Listing;
    if k == 0 {
      NothingFolds(bs);
      assert target[..0] + bs[0..] == bs;
    } else {
      BodiesReplay(bs, ts, n, k - 1, target);
      var us := Bodies(ts, n, k - 1);
      var vs := [Clear(k - 1)] + Listing(ts[k - 1], k - 1, n);
      var cs := Fold(bs, us);
      FoldConcat(bs, us, vs);
      TickerReplay(cs, ts[k - 1], k - 1, n, target[k - 1]);
      NextTicker(bs, target, k);
    }
  }

  /**
    Snapshots preserve time priority: replaying the body of a cycle on any books whatsoever gives
    exactly the books whose tables were published, every queue in the exchange's order.
  */
  lemma {:induction false} SnapshotRebuilds(bs: seq<PublicBook>, ts: seq<Table>, n: nat, target: seq<PublicBook>)
    requires |bs| == |ts| == |target| && AllHold(target, ts) && BooksOk(target) && Below(ts, n)
    ensures Fold(bs, Bodies(ts, n, |ts|)) == target
  {
    BodiesReplay(bs, ts, n, |ts|, target);
    assert target[..|ts|] + bs[|ts|..] == target;
  }

  // ---------------------------------------------------------------- the synthesizer itself

  /** Messages of a cycle carry consecutive numbers. */
  function Numbered(us: seq<Update>, first: nat): (r: seq<(nat, Update)>)
    ensures |r| == |us|
  {
    seq(|us|, i requires 0 <= i < |us| => (first + i, us[i]))
  }

  lemma {:induction false} NumberedConcat(us: seq<Update>, vs: seq<Update>, first: nat)
    ensures Numbered(us + vs, first) == Numbered(us, first) + Numbered(vs, first + |us|)
  {
  }

  lemma {:induction false} NumberedNothing(first: nat)
    ensures Numbered([], first) == []
  {
  }

  lemma {:induction false} NumberedIndex(us: seq<Update>, first: nat, i: nat)
    requires i < |us|
    ensures Numbered(us, first)[i] == (first + i, us[i])
  {
  }

  lemma {:induction false} FoldTablesOne(ts: seq<Table>, us: seq<Update>, k: nat)
    requires k < |us|
    ensures FoldTables(ts, us[..k + 1]) == StepTables(FoldTables(ts, us[..k]), us[k])
  {
    assert us[..k + 1][..k] == us[..k];
  }

  lemma {:induction false} NumberedOne(u: Update, first: nat)
    ensures Numbered([u], first) == [(first, u)]
  {
  }

  /** The cells of one ticker point at live pool objects for that ticker, each for its own id. */
  ghost predicate Points(row: seq<int>, store: seq<Block<Update>>, ticker: nat) {
    forall id | 0 <= id < |row| && row[id] != NULL :: PointsAt(row[id], store, ticker, id)
  }

  ghost predicate PointsAt(i: int, store: seq<Block<Update>>, ticker: nat, id: nat) {
    && 0 <= i < |store| && !store[i].isFree
    && var u := store[i].item; u.Add? && u.id == id && u.ticker == ticker
  }

  ghost predicate RowsOk(rows: seq<seq<int>>, store: seq<Block<Update>>) {
    forall t | 0 <= t < |rows| :: Points(rows[t], store, t)
  }

  /** The orders one ticker's cells point at. */
  ghost function TableOf(row: seq<int>, store: seq<Block<Update>>, ticker: nat): Table
    requires Points(row, store, ticker)
  {
    map id: nat | id < |row| && row[id] != NULL ::
      (assert PointsAt(row[id], store, ticker, id); Added(store[row[id]].item))
  }

  ghost function TablesOf(rows: seq<seq<int>>, store: seq<Block<Update>>): seq<Table>
    requires RowsOk(rows, store)
  {
    seq(|rows|, t requires 0 <= t < |rows| => TableOf(rows[t], store, t))
  }

  /** A new cell value `j` and a new value for block `i` concern this cell alone. */
  ghost predicate OwnBlock(rows: seq<seq<int>>, store: seq<Block<Update>>, t: nat, id: nat, i: nat) {
    && t < |rows| && id < |rows[t]| && i < |store|
    && (store[i].isFree || rows[t][id] == i)
  }

  /** Changing one cell together with its own block changes one entry of one table. */
  lemma {:induction false} RowKept(row: seq<int>, store: seq<Block<Update>>, t': nat, i: nat, blk: Block<Update>)
    requires Points(row, store, t') && i < |store|
    requires forall id | 0 <= id < |row| :: row[id] != i
    ensures Points(row, store[i := blk], t') && TableOf(row, store[i := blk], t') == TableOf(row, store, t')
  {
  }

  lemma {:induction false} RowChanged(
      row: seq<int>, store: seq<Block<Update>>, t: nat, id: nat, j: int, i: nat, blk: Block<Update>)
    requires Points(row, store, t) && i < |store| && id < |row|
    requires forall id' | 0 <= id' < |row| && id' != id :: row[id'] != i
    requires j == NULL || (j == i && PointsAt(i, store[i := blk], t, id))
    ensures var row', store' := row[id := j], store[i := blk];
            && Points(row', store', t)
            && TableOf(row', store', t)
               == if j == NULL then TableOf(row, store, t) - {id} else TableOf(row, store, t)[id := Added(blk.item)]
  {
  }

  lemma {:induction false} CellChanged(
      rows: seq<seq<int>>, store: seq<Block<Update>>, t: nat, id: nat, j: int, i: nat, blk: Block<Update>)
    requires RowsOk(rows, store) && OwnBlock(rows, store, t, id, i)
    requires j == NULL || (j == i && PointsAt(i, store[i := blk], t, id))
    ensures var rows', store' := rows[t := rows[t][id := j]], store[i := blk];
            && RowsOk(rows', store')
            && var was := TablesOf(rows, store);
               TablesOf(rows', store') == was[t := if j == NULL then was[t] - {id} else was[t][id := Added(blk.item)]]
  {
    var rows', store' := rows[t := rows[t][id := j]], store[i := blk];
    forall t', id' | 0 <= t' < |rows| && 0 <= id' < |rows[t']| && (t' != t || id' != id) ensures rows[t'][id'] != i {
      assert rows[t][id] != NULL ==> PointsAt(rows[t][id], store, t, id);
      assert rows[t'][id'] != NULL ==> PointsAt(rows[t'][id'], store, t', id');
    }
    RowChanged(rows[t], store, t, id, j, i, blk);
    forall t' | 0 <= t' < |rows| && t' != t
      ensures Points(rows'[t'], store', t') && TableOf(rows'[t'], store', t') == TableOf(rows[t'], store, t')
    {
      RowKept(rows[t'], store, t', i, blk);
    }
  }

  /** The number of orders in all tables together. */
  ghost function LiveOrders(ts: seq<Table>): nat {
    if ts == [] then 0 else LiveOrders(ts[..|ts| - 1]) + |ts[|ts| - 1]|
  }

  lemma {:induction false} LiveUpdate(ts: seq<Table>, k: nat, t: Table)
    requires k < |ts|
    ensures LiveOrders(ts[k := t]) == LiveOrders(ts) - |ts[k]| + |t|
  {
    var ts', n := ts[k := t], |ts| - 1;
    if k == n {
      assert ts'[..n] == ts[..n];
    } else {
      assert ts'[..n] == ts[..n][k := t];
      LiveUpdate(ts[..n], k, t);
    }
  }

  lemma {:induction false} NoneLive(n: nat)
    ensures LiveOrders(EmptyTables(n)) == 0
  {
    if n > 0 {
      assert EmptyTables(n)[..n - 1] == EmptyTables(n - 1);
      NoneLive(n - 1);
    }
  }

  lemma {:induction false} TableSizes(t: Table, id: nat, o: Order<()>)
    ensures |t[id := o]| == |t| + if id in t then 0 else 1
    ensures |t - {id}| == |t| - if id in t then 1 else 0
  {
    assert (t[id := o]).Keys == t.Keys + {id};
    assert (t - {id}).Keys == t.Keys - {id};
  }

  ghost predicate WithinPool(us: seq<Update>, k: nat, tickers: nat, blocks: nat) {
    k <= |us| && LiveOrders(FoldTables(EmptyTables(tickers), us[..k])) < blocks
  }

  /** A stream that the tables and the pool can take: ids in range, and never as many live orders as blocks. */
  ghost predicate Bounded(us: seq<Update>, tickers: nat, ids: nat, blocks: nat) {
    && (forall k | 0 <= k < |us| && us[k].Add? :: us[k].id < ids)
    && (forall k | 0 <= k <= |us| :: WithinPool(us, k, tickers, blocks))
  }

  /** Every pool block is free or holds one order of the tables. */
  ghost predicate Balanced(store: seq<Block<Update>>, ts: seq<Table>) {
    FreeCount(store) + LiveOrders(ts) == |store|
  }

  /** One table entry and one block change together. */
  lemma {:induction false} StaysBalanced(
      ts: seq<Table>, store: seq<Block<Update>>, t: nat, id: nat, o: Order<()>, i: nat, b: Block<Update>)
    requires Balanced(store, ts) && t < |ts| && i < |store|
    requires store[i].isFree <==> id !in ts[t]
    ensures Balanced(store[i := b], ts[t := if b.isFree then ts[t] - {id} else ts[t][id := o]])
  {
    TableSizes(ts[t], id, o);
    FreeCountUpdate(store, i, b);
    LiveUpdate(ts, t, if b.isFree then ts[t] - {id} else ts[t][id := o]);
  }

  /** One cell, its block and the balance between tables and pool. */
  lemma {:induction false} CellUpdated(
      rows: seq<seq<int>>, store: seq<Block<Update>>, t: nat, id: nat, j: int, i: nat, blk: Block<Update>)
    requires RowsOk(rows, store) && OwnBlock(rows, store, t, id, i) && Balanced(store, TablesOf(rows, store))
    requires store[i].isFree <==> rows[t][id] == NULL
    requires if j == NULL then blk.isFree else j == i && PointsAt(i, store[i := blk], t, id)
    requires blk.item.Add?
    ensures var rows', store' := rows[t := rows[t][id := j]], store[i := blk];
            && RowsOk(rows', store') && Balanced(store', TablesOf(rows', store'))
            && var was := TablesOf(rows, store);
               TablesOf(rows', store') == was[t := if j == NULL then was[t] - {id} else was[t][id := Added(blk.item)]]
  {
    CellChanged(rows, store, t, id, j, i, blk);
    var ts := TablesOf(rows, store);
    assert rows[t][id] == NULL <==> id !in ts[t];
    assert j != NULL ==> !blk.isFree;
    hide RowsOk, TablesOf, Balanced;
    StaysBalanced(ts, store, t, id, Added(blk.item), i, blk);
  }

  lemma {:induction false} SameRows(a: seq<seq<int>>, b: seq<seq<int>>)
    requires |a| == |b| && forall t | 0 <= t < |a| :: |a[t]| == |b[t]|
    requires forall t, id | 0 <= t < |a| && 0 <= id < |a[t]| :: a[t][id] == b[t][id]
    ensures a == b
  {
    assert forall t | 0 <= t < |a| :: a[t] == b[t];
  }

  class SnapshotSynthesizer {
    const tickerOrders: array2<int>
    const pool: MemPool<Update>
    var lastSeq: nat

    ghost function Rows(): (r: seq<seq<int>>)
      reads tickerOrders
    {
      seq(tickerOrders.Length0, t requires 0 <= t < tickerOrders.Length0 reads tickerOrders =>
        seq(tickerOrders.Length1, id requires 0 <= id < tickerOrders.Length1 reads tickerOrders => tickerOrders[t, id]))
    }

    /** The cells point at live pool objects. */
    ghost predicate Pointed()
      reads tickerOrders, pool.store
    {
      RowsOk(Rows(), pool.store[..])
    }

    ghost predicate Valid()
      reads this, tickerOrders, pool, pool.store
    {
      pool.Valid() && Pointed() && Balanced(pool.store[..], Tables())
    }

    /** The pool has a block exactly while the tables hold at least two orders fewer than it has blocks. */
    lemma {:induction false} RoomExactly()
      requires Valid()
      ensures pool.CanAllocate() <==> LiveOrders(Tables()) + 2 <= pool.store.Length
    {
      CapacityExact(pool.store[..], pool.nextFree);
    }

    ghost function Tables(): (r: seq<Table>)
      requires Pointed()
      reads tickerOrders, pool.store
      ensures |r| == tickerOrders.Length0
    {
      TablesOf(Rows(), pool.store[..])
    }

    constructor (tickers: nat, orderIds: nat)
      requires orderIds > 0
      ensures Valid() && fresh(tickerOrders) && fresh(pool) && fresh(pool.store) && lastSeq == 0
      ensures tickerOrders.Length1 == orderIds && Tables() == EmptyTables(tickers)
    {
      tickerOrders := new int[tickers, orderIds]((_, _) => NULL);
      pool := new MemPool<Update>(orderIds, Clear(0));
      lastSeq := 0;
      new;
      assert forall t, id | 0 <= t < tickers && 0 <= id < orderIds :: Rows()[t][id] == NULL;
      assert RowsOk(Rows(), pool.store[..]);
      assert TablesOf(Rows(), pool.store[..]) == EmptyTables(tickers);
      NoneLive(tickers);
      AllFreeCount(pool.store[..]);
    }

    /** Everything the assertions, table bounds and pool of `addToSnapshot` demand. */
    ghost predicate Takes(seqNum: nat, u: Update)
      requires Pointed()
      reads this, tickerOrders, pool, pool.store
    {
      && HasTicker(u, tickerOrders.Length0)
      && (u.Add? || u.Modify? || u.Cancel? ==> u.id < tickerOrders.Length1)
      && Acceptable(Tables()[u.ticker], u)
      && (u.Add? ==> LiveOrders(Tables()) + 2 <= pool.store.Length)
      && seqNum == lastSeq + 1
    }

    method AddToSnapshot(seqNum: nat, u: Update)
      requires Valid() && Takes(seqNum, u)
      modifies this, tickerOrders, pool, pool.store
      ensures Valid() && lastSeq == seqNum
      ensures Tables() == StepTables(old(Tables()), u)
    {
      if u.Add? {
        AddOrder(u);
      } else if u.Modify? {
        ModifyOrder(u);
      } else if u.Cancel? {
        CancelOrder(u);
      }
      lastSeq := seqNum;
    }

    /**
      The synthesizer's loop over what the publisher forwards: the updates `us`, numbered on from the last one seen.
      Every assertion about existence, id, side and sequence number holds at every message, and no table or pool
      overflows as long as the books never hold as many orders as the pool has blocks.
    */
    method Follow(msgs: seq<(nat, Update)>, ghost done: seq<Update>, ghost us: seq<Update>)
      requires Valid() && lastSeq == |done| && msgs == Numbered(us, lastSeq + 1)
      requires Tables() == FoldTables(EmptyTables(tickerOrders.Length0), done)
      requires GoodStream(EmptyBooks(tickerOrders.Length0), done + us)
      requires Bounded(done + us, tickerOrders.Length0, tickerOrders.Length1, pool.store.Length)
      modifies this, tickerOrders, pool, pool.store
      ensures Valid() && lastSeq == |done| + |us|
      ensures Tables() == FoldTables(EmptyTables(tickerOrders.Length0), done + us)
    {
      hide GoodStream, Bounded, Numbered, FoldTables, RowsOk, TablesOf, Balanced;
      ghost var all := done + us;
      assert all[..|done|] == done;
      assert Following(all);
      assert |msgs| == |us|;
      hide Valid, Following, Tables, Pointed;
      var i := 0;
      while i < |msgs|
        invariant 0 <= i <= |msgs| && Valid() && lastSeq == |done| + i && Following(all)
      {
        NumberedIndex(us, |done| + 1, i);
        FollowOne(msgs[i].0, msgs[i].1, all);
        i := i + 1;
      }
      Followed(all);
    }

    /** The tables are those of the updates read so far. */
    ghost predicate Following(all: seq<Update>)
      reads this, tickerOrders, pool.store
    {
      Pointed() && lastSeq <= |all| && Tables() == FoldTables(EmptyTables(tickerOrders.Length0), all[..lastSeq])
    }

    lemma {:induction false} Followed(all: seq<Update>)
      requires Following(all) && lastSeq == |all|
      ensures Pointed() && Tables() == FoldTables(EmptyTables(tickerOrders.Length0), all)
    {
      assert all[..lastSeq] == all;
    }

    method FollowOne(seqNum: nat, u: Update, ghost all: seq<Update>)
      requires Valid() && Following(all) && GoodStream(EmptyBooks(tickerOrders.Length0), all)
      requires Bounded(all, tickerOrders.Length0, tickerOrders.Length1, pool.store.Length)
      requires lastSeq < |all| && seqNum == lastSeq + 1 && u == all[lastSeq]
      modifies this, tickerOrders, pool, pool.store
      ensures Valid() && lastSeq == seqNum && Following(all)
    {
      FoldTablesOne(EmptyTables(tickerOrders.Length0), all, lastSeq);
      TakesNext(all);
      hide Tables, Pointed, FoldTables, StepTables, Takes, GoodStream, Bounded;
      AddToSnapshot(seqNum, u);
    }

    /** The next update of a good stream meets every demand of `addToSnapshot`. */
    lemma {:induction false} TakesNext(all: seq<Update>)
      requires Valid() && GoodStream(EmptyBooks(tickerOrders.Length0), all) && lastSeq < |all|
      requires Bounded(all, tickerOrders.Length0, tickerOrders.Length1, pool.store.Length)
      requires Tables() == FoldTables(EmptyTables(tickerOrders.Length0), all[..lastSeq])
      ensures Takes(lastSeq + 1, all[lastSeq])
    {
      var u := all[lastSeq];
      NeverAsserts(tickerOrders.Length0, all, lastSeq);
      assert WithinPool(all, lastSeq + 1, tickerOrders.Length0, pool.store.Length);
      hide GoodStream, LiveOrders;
      if u.Add? {
        FoldTablesOne(EmptyTables(tickerOrders.Length0), all, lastSeq);
        LiveUpdate(Tables(), u.ticker, ApplyTable(Tables()[u.ticker], u));
        TableSizes(Tables()[u.ticker], u.id, Added(u));
      }
    }

    method AddOrder(u: Update)
      requires Valid() && u.Add? && u.ticker < tickerOrders.Length0 && u.id < tickerOrders.Length1
      requires u.id !in Tables()[u.ticker] && LiveOrders(Tables()) + 2 <= pool.store.Length
      modifies tickerOrders, pool, pool.store
      ensures Valid() && Tables() == StepTables(old(Tables()), u)
    {
      hide LiveOrders, FreeCount, RowsOk, Balanced, TablesOf;
      ghost var rows, store := Rows(), pool.store[..];
      RoomExactly();
      CellListed(u.ticker, u.id);
      var ok, i := pool.Allocate(u);
      tickerOrders[u.ticker, u.id] := i;
      SameRows(Rows(), rows[u.ticker := rows[u.ticker][u.id := i]]);
      CellUpdated(rows, store, u.ticker, u.id, i, i, Block(u, false));
    }

    method ModifyOrder(u: Update)
      requires Valid() && u.Modify? && u.ticker < tickerOrders.Length0 && u.id < tickerOrders.Length1
      requires u.id in Tables()[u.ticker]
      modifies pool.store
      ensures Valid() && Tables() == StepTables(old(Tables()), u)
    {
      ghost var rows, store := Rows(), pool.store[..];
      var i := tickerOrders[u.ticker, u.id];
      assert rows[u.ticker][u.id] == i && PointsAt(i, store, u.ticker, u.id);
      var o := pool.store[i].item;
      var item := Add(o.id, o.ticker, o.side, u.price, u.qty, o.priority);
      pool.Write(i, item);
      SameRows(rows, rows[u.ticker := rows[u.ticker][u.id := i]]);
      CellUpdated(rows, store, u.ticker, u.id, i, i, Block(item, false));
    }

    method CancelOrder(u: Update)
      requires Valid() && u.Cancel? && u.ticker < tickerOrders.Length0 && u.id < tickerOrders.Length1
      requires u.id in Tables()[u.ticker]
      modifies tickerOrders, pool.store
      ensures Valid() && Tables() == StepTables(old(Tables()), u)
    {
      hide LiveOrders, FreeCount, RowsOk, Balanced, TablesOf;
      ghost var rows, store := Rows(), pool.store[..];
      CellListed(u.ticker, u.id);
      var i := tickerOrders[u.ticker, u.id];
      pool.Deallocate(i);
      tickerOrders[u.ticker, u.id] := NULL;
      SameRows(Rows(), rows[u.ticker := rows[u.ticker][u.id := NULL]]);
      CellUpdated(rows, store, u.ticker, u.id, NULL, i, Block(store[i].item, true));
    }

    /** What a cell of the table says about the published orders. */
    lemma {:induction false} CellListed(t: nat, id: nat)
      requires Pointed() && t < tickerOrders.Length0 && id < tickerOrders.Length1
      ensures id in Tables()[t] <==> tickerOrders[t, id] != NULL
      ensures var i := tickerOrders[t, id];
              i != NULL ==> PointsAt(i, pool.store[..], t, id) && pool.store[i].item == AddOf(Tables()[t][id], t)
    {
      assert Rows()[t][id] == tickerOrders[t, id];
    }

    /** One ticker's part of a cycle: a CLEAR and its orders by ascending id. */
    method PublishTicker(t: nat, first: nat) returns (msgs: seq<(nat, Update)>)
      requires Pointed() && t < tickerOrders.Length0
      ensures msgs == Numbered([Clear(t)] + Listing(Tables()[t], t, tickerOrders.Length1), first)
    {
      ghost var table := Tables()[t];
      hide Pointed, Tables, AddOf;
      msgs := [(first, Clear(t))];
      var id := 0;
      while id < tickerOrders.Length1
        invariant 0 <= id <= tickerOrders.Length1
        invariant msgs == Numbered([Clear(t)] + Listing(table, t, id), first)
      {
        CellListed(t, id);
        var i := tickerOrders[t, id];
        if i != NULL {
          var u := pool.store[i].item;
          ghost var sent := [Clear(t)] + Listing(table, t, id);
          NumberedConcat(sent, [u], first);
          msgs := msgs + [(first + |msgs|, u)];
          assert sent + [u] == [Clear(t)] + Listing(table, t, id + 1);
        }
        id := id + 1;
      }
    }

    /** A cycle: START, then every ticker's part, then END. */
    method PublishSnapshot() returns (msgs: seq<(nat, Update)>)
      requires Pointed()
      ensures msgs == Numbered(Cycle(Tables(), tickerOrders.Length1, lastSeq), 0)
    {
      ghost var ts := Tables();
      ghost var n: nat := tickerOrders.Length1;
      hide Pointed, Tables, Numbered, Listing;
      msgs := [(0, SnapshotStart(lastSeq))];
      NumberedOne(SnapshotStart(lastSeq), 0);
      assert [SnapshotStart(lastSeq)] + Bodies(ts, n, 0) == [SnapshotStart(lastSeq)];
      var t := 0;
      while t < tickerOrders.Length0
        invariant 0 <= t <= tickerOrders.Length0
        invariant msgs == Numbered([SnapshotStart(lastSeq)] + Bodies(ts, n, t), 0)
      {
        ghost var sent := [SnapshotStart(lastSeq)] + Bodies(ts, n, t);
        ghost var part := [Clear(t)] + Listing(ts[t], t, n);
        NumberedConcat(sent, part, 0);
        var more := PublishTicker(t, |msgs|);
        msgs := msgs + more;
        assert sent + part == [SnapshotStart(lastSeq)] + Bodies(ts, n, t + 1);
        t := t + 1;
      }
      NumberedConcat([SnapshotStart(lastSeq)] + Bodies(ts, n, t), [SnapshotEnd(lastSeq)], 0);
      NumberedOne(SnapshotEnd(lastSeq), |msgs|);
      msgs := msgs + [(|msgs|, SnapshotEnd(lastSeq))];
    }
  }
}
