/**
  The memory of a linked order book and what it means: two rings of price levels, best price first,
  each level holding a ring of orders in FIFO order, and a table of price slots shared by both sides.
  Everything here is about values; LinkedBook holds the code that updates them in place.
*/
module Ladder {
  import opened Types
  import opened PriceTime
  import opened MemPools
  import opened Rings

  datatype OrderNode<O> = OrderNode(order: Order<O>, link: Link)

  datatype LevelNode = LevelNode(side: Side, price: int, first: int, link: Link)

  /** `priceToIndex`: the price, converted to an unsigned 64-bit number, modulo the number of slots. */
  function Slot(price: int, n: nat): (k: nat)
    requires n > 0
    ensures k < n
  {
    (if price < 0 then price + TWO_64 else price) % n
  }

  datatype Mem<O> = Mem(ob: seq<Block<OrderNode<O>>>, lb: seq<Block<LevelNode>>, slots: seq<int>)

  /** The rings in list form: level indices of each side, and for every level its orders. */
  datatype Shape = Shape(bids: seq<int>, asks: seq<int>, fifo: map<int, seq<int>>)

  function RingOf(sh: Shape, side: Side): seq<int> {
    if side.Buy? then sh.bids else sh.asks
  }

  function OrderLinks<O>(ob: seq<Block<OrderNode<O>>>): (r: seq<Link>)
    ensures |r| == |ob| && forall i | 0 <= i < |ob| :: r[i] == ob[i].item.link
  {
    seq(|ob|, i requires 0 <= i < |ob| => ob[i].item.link)
  }

  function LevelLinks(lb: seq<Block<LevelNode>>): (r: seq<Link>)
    ensures |r| == |lb| && forall i | 0 <= i < |lb| :: r[i] == lb[i].item.link
  {
    seq(|lb|, i requires 0 <= i < |lb| => lb[i].item.link)
  }

  predicate OrderAt<O>(ob: seq<Block<OrderNode<O>>>, o: int, side: Side, price: int) {
    0 <= o < |ob| && !ob[o].isFree && ob[o].item.order.side == side && ob[o].item.order.price == price
  }

  ghost predicate LevelOk<O>(m: Mem<O>, l: int, q: seq<int>) {
    && 0 <= l < |m.lb| && !m.lb[l].isFree && |m.slots| > 0
    && Ring(OrderLinks(m.ob), q)
    && (forall i | 0 <= i < |q| :: OrderAt(m.ob, q[i], m.lb[l].item.side, m.lb[l].item.price))
    && m.lb[l].item.first == q[0]
    && m.slots[Slot(m.lb[l].item.price, |m.slots|)] == l
  }

  ghost predicate LevelsOk<O>(m: Mem<O>, fifo: map<int, seq<int>>) {
    forall l | l in fifo :: LevelOk(m, l, fifo[l])
  }

  ghost predicate SlotOk<O>(m: Mem<O>, fifo: map<int, seq<int>>, k: nat)
    requires k < |m.slots|
  {
    m.slots[k] == NULL || (m.slots[k] in fifo && 0 <= m.slots[k] < |m.lb|
                            && Slot(m.lb[m.slots[k]].item.price, |m.slots|) == k)
  }

  ghost predicate SlotsOk<O>(m: Mem<O>, fifo: map<int, seq<int>>) {
    forall k | 0 <= k < |m.slots| :: SlotOk(m, fifo, k)
  }

  predicate RungOk<O>(m: Mem<O>, fifo: map<int, seq<int>>, side: Side, l: int) {
    l in fifo && 0 <= l < |m.lb| && m.lb[l].item.side == side
  }

  /** The first of two levels has the better price. */
  predicate Ranked(lb: seq<Block<LevelNode>>, side: Side, a: int, b: int) {
    0 <= a < |lb| && 0 <= b < |lb| && Better(side, lb[a].item.price, lb[b].item.price)
  }

  ghost predicate SideOk<O>(m: Mem<O>, fifo: map<int, seq<int>>, side: Side, ring: seq<int>, best: int) {
    && best == (if ring == [] then NULL else ring[0])
    && (ring != [] ==> Ring(LevelLinks(m.lb), ring))
    && (forall i | 0 <= i < |ring| :: RungOk(m, fifo, side, ring[i]))
    && (forall i, j | 0 <= i < j < |ring| :: Ranked(m.lb, side, ring[i], ring[j]))
  }

  ghost predicate Covered<O>(m: Mem<O>, sh: Shape) {
    forall l | l in sh.fifo :: 0 <= l < |m.lb| && l in RingOf(sh, m.lb[l].item.side)
  }

  ghost predicate InLevel<O>(m: Mem<O>, fifo: map<int, seq<int>>, o: int) {
    && 0 <= o < |m.ob| && |m.slots| > 0
    && (var l := m.slots[Slot(m.ob[o].item.order.price, |m.slots|)]; l in fifo && o in fifo[l])
  }

  /** Every block in use is in the structure, except the order `xo` and the level `xl`, which are not. */
  ghost predicate LiveOk<O>(m: Mem<O>, fifo: map<int, seq<int>>, xo: int, xl: int) {
    && (forall o | 0 <= o < |m.ob| && !m.ob[o].isFree && o != xo :: InLevel(m, fifo, o))
    && (forall l | l in fifo :: xo !in fifo[l])
    && (forall l | 0 <= l < |m.lb| && !m.lb[l].isFree && l != xl :: l in fifo)
    && xl !in fifo
  }

  ghost predicate Inv<O>(m: Mem<O>, sh: Shape, bestBid: int, bestAsk: int, xo: int, xl: int) {
    && |m.slots| > 0
    && LevelsOk(m, sh.fifo)
    && SlotsOk(m, sh.fifo)
    && SideOk(m, sh.fifo, Buy, sh.bids, bestBid)
    && SideOk(m, sh.fifo, Sell, sh.asks, bestAsk)
    && Covered(m, sh)
    && LiveOk(m, sh.fifo, xo, xl)
  }

  // ---------------------------------------------------------------- the book it represents

  ghost predicate InRange<O>(ob: seq<Block<OrderNode<O>>>, q: seq<int>) {
    forall i | 0 <= i < |q| :: 0 <= q[i] < |ob|
  }

  ghost function Queue<O>(ob: seq<Block<OrderNode<O>>>, q: seq<int>): (s: seq<Order<O>>)
    requires InRange(ob, q)
    ensures |s| == |q| && forall i | 0 <= i < |q| :: s[i] == ob[q[i]].item.order
  {
    seq(|q|, i requires 0 <= i < |q| => ob[q[i]].item.order)
  }

  ghost predicate Flattenable<O>(ob: seq<Block<OrderNode<O>>>, fifo: map<int, seq<int>>, ring: seq<int>) {
    forall i | 0 <= i < |ring| :: ring[i] in fifo && InRange(ob, fifo[ring[i]])
  }

  ghost function Flat<O>(ob: seq<Block<OrderNode<O>>>, fifo: map<int, seq<int>>, ring: seq<int>): seq<Order<O>>
    requires Flattenable(ob, fifo, ring)
  {
    if ring == [] then [] else Queue(ob, fifo[ring[0]]) + Flat(ob, fifo, ring[1..])
  }

  lemma {:induction false} FlatConcat<O>(
      ob: seq<Block<OrderNode<O>>>, fifo: map<int, seq<int>>, a: seq<int>, b: seq<int>)
    requires Flattenable(ob, fifo, a + b) && Flattenable(ob, fifo, a) && Flattenable(ob, fifo, b)
    ensures Flat(ob, fifo, a + b) == Flat(ob, fifo, a) + Flat(ob, fifo, b)
  {
    if a == [] {
      assert a + b == b;
    } else {
      assert (a + b)[1..] == a[1..] + b;
      FlatConcat(ob, fifo, a[1..], b);
    }
  }

  /** The flat view splits at every level. */
  lemma {:induction false} FlatSplit<O>(ob: seq<Block<OrderNode<O>>>, fifo: map<int, seq<int>>, ring: seq<int>, k: nat)
    requires Flattenable(ob, fifo, ring) && k <= |ring|
    ensures Flattenable(ob, fifo, ring[..k]) && Flattenable(ob, fifo, ring[k..])
    ensures Flat(ob, fifo, ring) == Flat(ob, fifo, ring[..k]) + Flat(ob, fifo, ring[k..])
  {
    assert ring == ring[..k] + ring[k..];
    FlatConcat(ob, fifo, ring[..k], ring[k..]);
  }

  lemma {:induction false} FlatFrame<O>(
      ob: seq<Block<OrderNode<O>>>, ob': seq<Block<OrderNode<O>>>, fifo: map<int, seq<int>>, fifo': map<int, seq<int>>,
          ring: seq<int>)
    requires Flattenable(ob, fifo, ring) && |ob'| == |ob|
    requires forall i | 0 <= i < |ring| :: ring[i] in fifo' && fifo'[ring[i]] == fifo[ring[i]]
    requires forall i, j | 0 <= i < |ring| && 0 <= j < |fifo[ring[i]]| ::
               ob'[fifo[ring[i]][j]].item.order == ob[fifo[ring[i]][j]].item.order
    ensures Flattenable(ob', fifo', ring)
    ensures Flat(ob', fifo', ring) == Flat(ob, fifo, ring)
  {
    if ring != [] {
      var t := ring[1..];
      assert forall i | 0 <= i < |t| :: t[i] == ring[i + 1];
      FlatFrame(ob, ob', fifo, fifo', t);
      assert Queue(ob', fifo'[ring[0]]) == Queue(ob, fifo[ring[0]]);
    }
  }

  /** The order has the side and price of one of the levels. */
  ghost predicate OfLevel<O>(w: Order<O>, m: Mem<O>, ring: seq<int>) {
    exists i | 0 <= i < |ring| ::
      0 <= ring[i] < |m.lb| && m.lb[ring[i]].item.price == w.price && m.lb[ring[i]].item.side == w.side
  }

  ghost predicate AllOf<O>(s: seq<Order<O>>, m: Mem<O>, ring: seq<int>) {
    forall p | 0 <= p < |s| :: OfLevel(s[p], m, ring)
  }

  lemma {:induction false} OfLaterLevel<O>(w: Order<O>, m: Mem<O>, ring: seq<int>)
    requires ring != [] && OfLevel(w, m, ring[1..])
    ensures OfLevel(w, m, ring)
  {
    var t := ring[1..];
    var i :| 0 <= i < |t| && 0 <= t[i] < |m.lb| && m.lb[t[i]].item.price == w.price && m.lb[t[i]].item.side == w.side;
    assert t[i] == ring[i + 1];
  }

  /** Every order in the view of some levels has the side and price of one of them. */
  lemma {:induction false} FlatPrices<O>(m: Mem<O>, fifo: map<int, seq<int>>, ring: seq<int>)
    requires LevelsOk(m, fifo) && Flattenable(m.ob, fifo, ring)
    ensures AllOf(Flat(m.ob, fifo, ring), m, ring)
  {
    if ring != [] {
      FlatPrices(m, fifo, ring[1..]);
      var q, s, t := fifo[ring[0]], Flat(m.ob, fifo, ring), Flat(m.ob, fifo, ring[1..]);
      QueuePrices(m, ring[0], q);
      assert LevelOk(m, ring[0], q);
      hide Flat, LevelsOk, OfLevel;
      forall p | 0 <= p < |s| ensures OfLevel(s[p], m, ring) {
        if p < |q| {
          assert s[p] == Queue(m.ob, q)[p];
          FirstLevel(s[p], m, ring);
        } else {
          assert s[p] == t[p - |q|];
          OfLaterLevel(s[p], m, ring);
        }
      }
    }
  }

  lemma {:induction false} FirstLevel<O>(w: Order<O>, m: Mem<O>, ring: seq<int>)
    requires ring != [] && 0 <= ring[0] < |m.lb|
    requires m.lb[ring[0]].item.price == w.price && m.lb[ring[0]].item.side == w.side
    ensures OfLevel(w, m, ring)
  {
  }

  lemma {:induction false} FlatThree<O>(
      ob: seq<Block<OrderNode<O>>>, fifo: map<int, seq<int>>, a: seq<int>, l: int, c: seq<int>)
    requires Flattenable(ob, fifo, a) && Flattenable(ob, fifo, c) && l in fifo && InRange(ob, fifo[l])
    ensures Flattenable(ob, fifo, a + [l] + c)
    ensures Flat(ob, fifo, a + [l] + c) == Flat(ob, fifo, a) + Queue(ob, fifo[l]) + Flat(ob, fifo, c)
  {
    var t := [l] + c;
    assert a + [l] + c == a + t && t[1..] == c;
    FlatConcat(ob, fifo, a, t);
  }

  /** The flat view around the level at `k`. */
  lemma {:induction false} FlatAround<O>(ob: seq<Block<OrderNode<O>>>, fifo: map<int, seq<int>>, ring: seq<int>, k: nat)
    requires Flattenable(ob, fifo, ring) && k < |ring|
    ensures Flattenable(ob, fifo, ring[..k]) && Flattenable(ob, fifo, ring[k + 1..])
    ensures Flat(ob, fifo, ring)
            == Flat(ob, fifo, ring[..k]) + (Queue(ob, fifo[ring[k]]) + Flat(ob, fifo, ring[k + 1..]))
  {
    FlatSplit(ob, fifo, ring, k);
    var t := ring[k..];
    assert t[0] == ring[k] && t[1..] == ring[k + 1..];
  }

  ghost predicate Ahead<O>(s: seq<Order<O>>, side: Side, price: int) {
    forall p | 0 <= p < |s| :: !Better(side, price, s[p].price)
  }

  ghost predicate Behind<O>(s: seq<Order<O>>, side: Side, price: int) {
    forall p | 0 <= p < |s| :: Better(side, price, s[p].price)
  }

  /** All orders of these levels keep precedence over a newcomer at `price`. */
  lemma {:induction false} FlatAhead<O>(m: Mem<O>, fifo: map<int, seq<int>>, side: Side, ring: seq<int>, price: int)
    requires LevelsOk(m, fifo) && Flattenable(m.ob, fifo, ring)
    requires forall i | 0 <= i < |ring| && 0 <= ring[i] < |m.lb| :: !Better(side, price, m.lb[ring[i]].item.price)
    ensures Ahead(Flat(m.ob, fifo, ring), side, price)
  {
    FlatPrices(m, fifo, ring);
  }

  /** All orders of these levels give precedence to a newcomer at `price`. */
  lemma {:induction false} FlatBehind<O>(m: Mem<O>, fifo: map<int, seq<int>>, side: Side, ring: seq<int>, price: int)
    requires LevelsOk(m, fifo) && Flattenable(m.ob, fifo, ring)
    requires forall i | 0 <= i < |ring| && 0 <= ring[i] < |m.lb| :: Better(side, price, m.lb[ring[i]].item.price)
    ensures Behind(Flat(m.ob, fifo, ring), side, price)
  {
    FlatPrices(m, fifo, ring);
  }

  lemma {:induction false} QueuePrices<O>(m: Mem<O>, l: int, q: seq<int>)
    requires LevelOk(m, l, q)
    ensures InRange(m.ob, q)
    ensures var s := Queue(m.ob, q);
            forall p | 0 <= p < |s| :: s[p].price == m.lb[l].item.price && s[p].side == m.lb[l].item.side
  {
  }
}
