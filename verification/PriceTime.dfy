/**
  One side of a limit order book as a single sequence in matching order: best price first,
  and within a price the order in which the exchange accepted the orders. A price level is a
  maximal run of equal prices. `O` is what the book knows about an order's owner: the exchange
  records client and client order id, the public book nothing.
*/
module PriceTime {
  import opened Types

  datatype Order<+O> = Order(owner: O, id: nat, side: Side, price: int, qty: nat, priority: nat)

  datatype Book<+O> = Book(bids: seq<Order<O>>, asks: seq<Order<O>>)

  function Half<O>(b: Book<O>, side: Side): seq<Order<O>> {
    if side.Buy? then b.bids else b.asks
  }

  function WithHalf<O>(b: Book<O>, side: Side, s: seq<Order<O>>): Book<O> {
    if side.Buy? then Book(s, b.asks) else Book(b.bids, s)
  }

  /** `p` is strictly more aggressive than `q` for orders of this side. */
  predicate Better(side: Side, p: int, q: int) {
    if side.Buy? then p > q else p < q
  }

  /** Price-time precedence; market order ids are handed out in order of arrival. */
  predicate Before<O>(a: Order<O>, b: Order<O>) {
    Better(a.side, a.price, b.price) || (a.price == b.price && a.id < b.id)
  }

  ghost predicate Sorted<O>(side: Side, s: seq<Order<O>>) {
    && (forall i | 0 <= i < |s| :: s[i].side == side)
    && (forall i, j | 0 <= i < j < |s| :: Before(s[i], s[j]))
  }

  /** How many orders keep precedence over a newcomer at this price. */
  function Rank<O>(s: seq<Order<O>>, side: Side, price: int): (k: nat)
    ensures k <= |s|
    ensures forall i | 0 <= i < k :: !Better(side, price, s[i].price)
    ensures k < |s| ==> Better(side, price, s[k].price)
  {
    if s == [] || Better(side, price, s[0].price) then 0 else 1 + Rank(s[1..], side, price)
  }

  function Insert<O>(s: seq<Order<O>>, o: Order<O>): seq<Order<O>> {
    var k := Rank(s, o.side, o.price);
    s[..k] + [o] + s[k..]
  }

  /** The priority of a newcomer at this price: one more than the last order there, or one. */
  function NextPriority<O>(s: seq<Order<O>>, side: Side, price: int): nat {
    var k := Rank(s, side, price);
    if k > 0 && s[k - 1].price == price then s[k - 1].priority + 1 else 1
  }

  /** A book with one more resting order. */
  function Inserted<O>(b: Book<O>, o: Order<O>): Book<O> {
    WithHalf(b, o.side, Insert(Half(b, o.side), o))
  }

  /** Position of the order with this id, or |s|. */
  function Find<O>(s: seq<Order<O>>, id: nat): (k: nat)
    ensures k <= |s|
    ensures forall i | 0 <= i < k :: s[i].id != id
    ensures k < |s| ==> s[k].id == id
  {
    if s == [] || s[0].id == id then 0 else 1 + Find(s[1..], id)
  }

  function Without<O>(s: seq<Order<O>>, k: nat): seq<Order<O>>
    requires k < |s|
  {
    s[..k] + s[k + 1..]
  }

  /** A book without the order at this position of a side. */
  function Removed<O>(b: Book<O>, side: Side, k: nat): Book<O>
    requires k < |Half(b, side)|
  {
    WithHalf(b, side, Without(Half(b, side), k))
  }

  /** `b'` is `b` without the order `w`, which stood at position `k` of its side. */
  ghost predicate TookOut<O>(b: Book<O>, b': Book<O>, w: Order<O>, k: nat) {
    k < |Half(b, w.side)| && Half(b, w.side)[k] == w && b' == Removed(b, w.side, k)
  }

  /** A book with a changed quantity at this position of a side. */
  function Requantified<O>(b: Book<O>, side: Side, k: nat, qty: nat): Book<O>
    requires k < |Half(b, side)|
  {
    var s := Half(b, side);
    WithHalf(b, side, s[k := s[k].(qty := qty)])
  }

  function Remove<O>(s: seq<Order<O>>, id: nat): seq<Order<O>> {
    var k := Find(s, id);
    if k < |s| then Without(s, k) else s
  }

  function SetQty<O>(s: seq<Order<O>>, id: nat, qty: nat): seq<Order<O>> {
    var k := Find(s, id);
    if k < |s| then s[k := s[k].(qty := qty)] else s
  }

  /** Where an insertion happens is determined by the prices on either side of the gap. */
  lemma {:induction false} RankSplit<O>(a: seq<Order<O>>, b: seq<Order<O>>, side: Side, price: int)
    requires forall i | 0 <= i < |a| :: !Better(side, price, a[i].price)
    requires forall i | 0 <= i < |b| :: Better(side, price, b[i].price)
    ensures Rank(a + b, side, price) == |a|
  {
    var s := a + b;
    assert forall i | 0 <= i < |a| :: s[i] == a[i];
    assert b != [] ==> s[|a|] == b[0];
    var r := Rank(s, side, price);
  }

  lemma {:induction false} InsertSplit<O>(a: seq<Order<O>>, b: seq<Order<O>>, o: Order<O>)
    requires forall i | 0 <= i < |a| :: !Better(o.side, o.price, a[i].price)
    requires forall i | 0 <= i < |b| :: Better(o.side, o.price, b[i].price)
    ensures Insert(a + b, o) == a + [o] + b
  {
    RankSplit(a, b, o.side, o.price);
  }

  /** Prices never improve along the sequence. */
  ghost predicate Monotone<O>(side: Side, s: seq<Order<O>>) {
    forall i, j | 0 <= i < j < |s| :: !Better(side, s[j].price, s[i].price)
  }

  lemma {:induction false} SortedMonotone<O>(side: Side, s: seq<Order<O>>)
    requires Sorted(side, s)
    ensures Monotone(side, s)
  {
  }

  lemma {:induction false} InsertSorted<O>(side: Side, s: seq<Order<O>>, o: Order<O>)
    requires Sorted(side, s) && o.side == side
    requires forall i | 0 <= i < |s| :: s[i].id < o.id
    ensures Sorted(side, Insert(s, o))
  {
  }

  lemma {:induction false} InsertMembers<O>(s: seq<Order<O>>, o: Order<O>, x: Order<O>)
    ensures x in Insert(s, o) <==> x == o || x in s
  {
  }

  lemma {:induction false} SetQtySorted<O>(side: Side, s: seq<Order<O>>, k: nat, qty: nat)
    requires k < |s| && Sorted(side, s)
    ensures Sorted(side, s[k := s[k].(qty := qty)])
  {
  }

  /** A side in matching order is determined by its set of orders. */
  lemma {:induction false} SortedUnique<O>(side: Side, s: seq<Order<O>>, t: seq<Order<O>>)
    requires Sorted(side, s) && Sorted(side, t)
    requires forall x :: x in s <==> x in t
    ensures s == t
  {
    assert t != [] ==> t[0] in t;
    if s == [] {
      assert t == [];
    } else {
      assert s[0] in s && s[0] in t;
      var j :| 0 <= j < |t| && t[j] == s[0];
      assert t[0] in t && t[0] in s;
      var i :| 0 <= i < |s| && s[i] == t[0];
      assert j != 0 ==> Before(t[0], t[j]);
      assert i != 0 ==> Before(s[0], s[i]);
      forall x ensures x in s[1..] <==> x in t[1..] {
        TailMembers(side, s, x);
        TailMembers(side, t, x);
      }
      SortedUnique(side, s[1..], t[1..]);
      assert s == [s[0]] + s[1..] && t == [t[0]] + t[1..];
    }
  }

  lemma {:induction false} TailMembers<O>(side: Side, s: seq<Order<O>>, x: Order<O>)
    requires Sorted(side, s) && s != []
    ensures x in s[1..] <==> x in s && x != s[0]
  {
  }
}
