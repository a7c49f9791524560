/** How each pointer operation of the order book changes the rings, and the book they represent. */
module LadderOps {
  import opened Types
  import opened PriceTime
  import opened MemPools
  import opened Rings
  import opened Ladder

  /** Two states of the order pool that differ in links only. */
  ghost predicate SameOrders<O>(ob: seq<Block<OrderNode<O>>>, ob': seq<Block<OrderNode<O>>>) {
    |ob'| == |ob| && forall j | 0 <= j < |ob| :: ob'[j].isFree == ob[j].isFree && ob'[j].item.order == ob[j].item.order
  }

  /** Two states of the level pool that agree on everything but links for the levels other than `l`. */
  ghost predicate SameLevels(lb: seq<Block<LevelNode>>, lb': seq<Block<LevelNode>>, l: int) {
    |lb'| == |lb| && forall j | 0 <= j < |lb| && j != l ::
      lb'[j].isFree == lb[j].isFree && lb'[j].item == lb[j].item.(link := lb'[j].item.link)
  }

  lemma {:induction false} LevelKept<O>(m: Mem<O>, m': Mem<O>, l: int, q: seq<int>)
    requires LevelOk(m, l, q)
    requires |m'.ob| == |m.ob| && |m'.lb| == |m.lb| && |m'.slots| == |m.slots|
    requires !m'.lb[l].isFree && m'.lb[l].item == m.lb[l].item.(link := m'.lb[l].item.link)
    requires m'.slots[Slot(m.lb[l].item.price, |m.slots|)] == l
    requires forall i | 0 <= i < |q| && 0 <= q[i] < |m.ob| ::
               m'.ob[q[i]].item.link == m.ob[q[i]].item.link
               && OrderAt(m'.ob, q[i], m.lb[l].item.side, m.lb[l].item.price)
    ensures LevelOk(m', l, q)
  {
    forall i | 0 <= i < |q| ensures OrderAt(m'.ob, q[i], m.lb[l].item.side, m.lb[l].item.price) {
      assert OrderAt(m.ob, q[i], m.lb[l].item.side, m.lb[l].item.price);
    }
    RingFrame(OrderLinks(m.ob), OrderLinks(m'.ob), q);
  }

  /** An order's price determines its level. */
  lemma {:induction false} OneLevel<O>(m: Mem<O>, fifo: map<int, seq<int>>, l: int, l': int, o: int)
    requires LevelsOk(m, fifo) && l in fifo && l' in fifo && o in fifo[l] && o in fifo[l']
    ensures l == l'
  {
  }

  /** A side is unaffected by changes to orders and by levels joining or leaving other rings. */
  lemma {:induction false} SideKept<O>(
      m: Mem<O>, m': Mem<O>, fifo: map<int, seq<int>>, fifo': map<int, seq<int>>, side: Side, ring: seq<int>, best: int)
    requires SideOk(m, fifo, side, ring, best) && |m'.lb| == |m.lb|
    requires forall i | 0 <= i < |ring| && 0 <= ring[i] < |m.lb| ::
               ring[i] in fifo'
               && m'.lb[ring[i]].item.link == m.lb[ring[i]].item.link
               && m'.lb[ring[i]].item.side == m.lb[ring[i]].item.side
               && m'.lb[ring[i]].item.price == m.lb[ring[i]].item.price
    ensures SideOk(m', fifo', side, ring, best)
  {
    if ring != [] {
      RingFrame(LevelLinks(m.lb), LevelLinks(m'.lb), ring);
    }
    forall i | 0 <= i < |ring| ensures RungOk(m', fifo', side, ring[i]) {
      assert RungOk(m, fifo, side, ring[i]);
    }
    forall i, j | 0 <= i < j < |ring| ensures Ranked(m'.lb, side, ring[i], ring[j]) {
      assert RungOk(m, fifo, side, ring[i]) && RungOk(m, fifo, side, ring[j]);
      assert Ranked(m.lb, side, ring[i], ring[j]);
    }
  }

  // ---------------------------------------------------------------- appending to a level

  ghost predicate Appended<O>(m: Mem<O>, m': Mem<O>, q: seq<int>, o: int) {
    && q != [] && 0 <= o < |m.ob|
    && m'.lb == m.lb && m'.slots == m.slots && SameOrders(m.ob, m'.ob)
    && LinkedIn(OrderLinks(m.ob), OrderLinks(m'.ob), o, q[|q| - 1], q[0])
  }

  lemma {:induction false} AppendLevels<O>(m: Mem<O>, m': Mem<O>, fifo: map<int, seq<int>>, l: int, o: int)
    requires LevelsOk(m, fifo) && l in fifo && Appended(m, m', fifo[l], o)
    requires OrderAt(m.ob, o, m.lb[l].item.side, m.lb[l].item.price)
    requires forall k | k in fifo :: o !in fifo[k]
    ensures LevelsOk(m', fifo[l := fifo[l] + [o]])
  {
    var q := fifo[l];
    var fifo' := fifo[l := q + [o]];
    forall k | k in fifo' ensures LevelOk(m', k, fifo'[k]) {
      assert LevelOk(m, k, fifo[k]);
      if k == l {
        RingInsert(OrderLinks(m.ob), OrderLinks(m'.ob), q, |q|, o);
        assert InsertAt(q, |q|, o) == q + [o];
        assert forall i | 0 <= i < |q| :: OrderAt(m.ob, q[i], m.lb[l].item.side, m.lb[l].item.price);
      } else {
        if q[0] in fifo[k] {
          OneLevel(m, fifo, l, k, q[0]);
        }
        if q[|q| - 1] in fifo[k] {
          OneLevel(m, fifo, l, k, q[|q| - 1]);
        }
        assert forall i | 0 <= i < |fifo[k]| :: OrderAt(m.ob, fifo[k][i], m.lb[k].item.side, m.lb[k].item.price);
        LevelKept(m, m', k, fifo[k]);
      }
    }
  }

  lemma {:induction false} AppendLive<O>(m: Mem<O>, m': Mem<O>, fifo: map<int, seq<int>>, l: int, o: int)
    requires LevelsOk(m, fifo) && l in fifo && Appended(m, m', fifo[l], o) && LiveOk(m, fifo, o, NULL)
    requires OrderAt(m.ob, o, m.lb[l].item.side, m.lb[l].item.price)
    ensures LiveOk(m', fifo[l := fifo[l] + [o]], NULL, NULL)
  {
  }

  /** Linking an order in at the tail of its level's ring keeps the whole structure. */
  lemma {:induction false} AppendInv<O>(m: Mem<O>, m': Mem<O>, sh: Shape, bb: int, ba: int, l: int, o: int)
    requires Inv(m, sh, bb, ba, o, NULL) && l in sh.fifo && Appended(m, m', sh.fifo[l], o)
    requires OrderAt(m.ob, o, m.lb[l].item.side, m.lb[l].item.price)
    ensures Inv(m', sh.(fifo := sh.fifo[l := sh.fifo[l] + [o]]), bb, ba, NULL, NULL)
  {
    var fifo' := sh.fifo[l := sh.fifo[l] + [o]];
    AppendLevels(m, m', sh.fifo, l, o);
    AppendLive(m, m', sh.fifo, l, o);
    SideKept(m, m', sh.fifo, fifo', Buy, sh.bids, bb);
    SideKept(m, m', sh.fifo, fifo', Sell, sh.asks, ba);
    forall k | 0 <= k < |m'.slots| ensures SlotOk(m', fifo', k) {
      assert SlotOk(m, sh.fifo, k);
    }
  }

  /** Levels on one side have different prices, so a level occurs once. */
  lemma {:induction false} RingOnce<O>(
      m: Mem<O>, fifo: map<int, seq<int>>, side: Side, ring: seq<int>, best: int, k: nat)
    requires SideOk(m, fifo, side, ring, best) && k < |ring|
    ensures ring[k] !in ring[..k] && ring[k] !in ring[k + 1..]
  {
  }

  /** The levels before and behind position `k`, as they rank against the level there. */
  lemma {:induction false} RingRanks<O>(
      m: Mem<O>, fifo: map<int, seq<int>>, side: Side, ring: seq<int>, best: int, k: nat)
    requires SideOk(m, fifo, side, ring, best) && k < |ring|
    ensures 0 <= ring[k] < |m.lb|
    ensures var a := ring[..k]; forall i | 0 <= i < |a| :: Ranked(m.lb, side, a[i], ring[k])
    ensures var c := ring[k + 1..]; forall i | 0 <= i < |c| :: Ranked(m.lb, side, ring[k], c[i])
  {
  }

  lemma {:induction false} AheadOfLevel<O>(
      m: Mem<O>, fifo: map<int, seq<int>>, side: Side, ring: seq<int>, best: int, k: nat)
    requires LevelsOk(m, fifo) && SideOk(m, fifo, side, ring, best) && k < |ring| && Flattenable(m.ob, fifo, ring[..k])
    ensures 0 <= ring[k] < |m.lb|
    ensures Ahead(Flat(m.ob, fifo, ring[..k]), side, m.lb[ring[k]].item.price)
  {
    RingRanks(m, fifo, side, ring, best, k);
    FlatAhead(m, fifo, side, ring[..k], m.lb[ring[k]].item.price);
  }

  lemma {:induction false} BehindLevel<O>(
      m: Mem<O>, fifo: map<int, seq<int>>, side: Side, ring: seq<int>, best: int, k: nat)
    requires LevelsOk(m, fifo) && SideOk(m, fifo, side, ring, best) && k < |ring|
             && Flattenable(m.ob, fifo, ring[k + 1..])
    ensures 0 <= ring[k] < |m.lb|
    ensures Behind(Flat(m.ob, fifo, ring[k + 1..]), side, m.lb[ring[k]].item.price)
  {
    RingRanks(m, fifo, side, ring, best, k);
    FlatBehind(m, fifo, side, ring[k + 1..], m.lb[ring[k]].item.price);
  }

  lemma {:induction false} QueueAhead<O>(m: Mem<O>, fifo: map<int, seq<int>>, l: int, side: Side)
    requires LevelsOk(m, fifo) && l in fifo
    ensures 0 <= l < |m.lb| && InRange(m.ob, fifo[l])
    ensures Ahead(Queue(m.ob, fifo[l]), side, m.lb[l].item.price)
  {
  }

  lemma {:induction false} AppendSeqs<O>(a: seq<Order<O>>, b: seq<Order<O>>, c: seq<Order<O>>, w: Order<O>)
    requires Ahead(a, w.side, w.price) && Ahead(b, w.side, w.price) && Behind(c, w.side, w.price)
    ensures Insert(a + (b + c), w) == a + ((b + [w]) + c)
  {
    InsertSplit(a + b, c, w);
    assert (a + b) + c == a + (b + c) && (a + b) + [w] + c == a + ((b + [w]) + c);
  }

  /** The view after the queue at `k` alone has changed. */
  lemma {:induction false} FlatReplace<O>(
      ob: seq<Block<OrderNode<O>>>, ob': seq<Block<OrderNode<O>>>, fifo: map<int, seq<int>>, ring: seq<int>, k: nat,
          q': seq<int>)
    requires Flattenable(ob, fifo, ring) && k < |ring| && |ob'| == |ob|
    requires ring[k] !in ring[..k] && ring[k] !in ring[k + 1..] && InRange(ob', q')
    requires forall i, j | 0 <= i < |ring| && i != k && 0 <= j < |fifo[ring[i]]| ::
               ob'[fifo[ring[i]][j]].item.order == ob[fifo[ring[i]][j]].item.order
    ensures Flattenable(ob, fifo, ring[..k]) && Flattenable(ob, fifo, ring[k + 1..])
    ensures Flattenable(ob', fifo[ring[k] := q'], ring)
    ensures Flat(ob', fifo[ring[k] := q'], ring)
         == Flat(ob, fifo, ring[..k]) + (Queue(ob', q') + Flat(ob, fifo, ring[k + 1..]))
  {
    var fifo' := fifo[ring[k] := q'];
    FlatAround(ob, fifo, ring, k);
    forall i | 0 <= i < |ring[..k]| ensures ring[..k][i] == ring[i] && ring[i] != ring[k] {
    }
    var t := ring[k + 1..];
    forall i | 0 <= i < |t| ensures t[i] == ring[k + 1 + i] && t[i] != ring[k] {
    }
    FlatFrame(ob, ob', fifo, fifo', ring[..k]);
    FlatFrame(ob, ob', fifo, fifo', t);
    FlatAround(ob', fifo', ring, k);
  }

  /** In the represented book the order takes its place behind every order at least as good. */
  lemma {:induction false} AppendView<O>(
      m: Mem<O>, m': Mem<O>, fifo: map<int, seq<int>>, side: Side, ring: seq<int>, best: int, k: nat, o: int)
    requires LevelsOk(m, fifo) && SideOk(m, fifo, side, ring, best) && k < |ring| && ring[k] in fifo
    requires Appended(m, m', fifo[ring[k]], o) && Flattenable(m.ob, fifo, ring)
    requires 0 <= ring[k] < |m.lb| && OrderAt(m.ob, o, side, m.lb[ring[k]].item.price)
    ensures var fifo' := fifo[ring[k] := fifo[ring[k]] + [o]];
            && Flattenable(m'.ob, fifo', ring)
            && Flat(m'.ob, fifo', ring) == Insert(Flat(m.ob, fifo, ring), m.ob[o].item.order)
  {
    var l := ring[k];
    var q := fifo[l];
    var w := m.ob[o].item.order;
    RingOnce(m, fifo, side, ring, best, k);
    FlatReplace(m.ob, m'.ob, fifo, ring, k, q + [o]);
    FlatAround(m.ob, fifo, ring, k);
    AheadOfLevel(m, fifo, side, ring, best, k);
    BehindLevel(m, fifo, side, ring, best, k);
    QueueAhead(m, fifo, l, side);
    assert Queue(m'.ob, q + [o]) == Queue(m.ob, q) + [w];
    AppendSeqs(Flat(m.ob, fifo, ring[..k]), Queue(m.ob, q), Flat(m.ob, fifo, ring[k + 1..]), w);
  }

  // ---------------------------------------------------------------- changes outside the rings

  /** Members of the structure look the same to it in both states of the order pool. */
  ghost predicate MembersKept<O>(ob: seq<Block<OrderNode<O>>>, ob': seq<Block<OrderNode<O>>>, q: seq<int>) {
    |ob'| == |ob| && forall i | 0 <= i < |q| && 0 <= q[i] < |ob| ::
      && ob'[q[i]].item.link == ob[q[i]].item.link && ob'[q[i]].isFree == ob[q[i]].isFree
      && ob'[q[i]].item.order.side == ob[q[i]].item.order.side
      && ob'[q[i]].item.order.price == ob[q[i]].item.order.price
  }

  lemma {:induction false} LevelsFrame<O>(m: Mem<O>, m': Mem<O>, fifo: map<int, seq<int>>)
    requires LevelsOk(m, fifo) && m'.slots == m.slots && |m'.lb| == |m.lb| && |m'.ob| == |m.ob|
    requires forall l | l in fifo && 0 <= l < |m.lb| :: m'.lb[l] == m.lb[l] && MembersKept(m.ob, m'.ob, fifo[l])
    ensures LevelsOk(m', fifo)
  {
    forall l | l in fifo ensures LevelOk(m', l, fifo[l]) {
      assert LevelOk(m, l, fifo[l]) && MembersKept(m.ob, m'.ob, fifo[l]);
      assert forall i | 0 <= i < |fifo[l]| :: OrderAt(m.ob, fifo[l][i], m.lb[l].item.side, m.lb[l].item.price);
      LevelKept(m, m', l, fifo[l]);
    }
  }

  lemma {:induction false} SlotsFrame<O>(m: Mem<O>, m': Mem<O>, fifo: map<int, seq<int>>)
    requires SlotsOk(m, fifo) && m'.slots == m.slots && |m'.lb| == |m.lb|
    requires forall l | l in fifo && 0 <= l < |m.lb| :: m'.lb[l].item.price == m.lb[l].item.price
    ensures SlotsOk(m', fifo)
  {
    forall k | 0 <= k < |m'.slots| ensures SlotOk(m', fifo, k) {
      assert SlotOk(m, fifo, k);
    }
  }

  predicate SameRung(a: LevelNode, b: LevelNode) {
    a.link == b.link && a.side == b.side && a.price == b.price
  }

  lemma {:induction false} SideFrame<O>(
      m: Mem<O>, m': Mem<O>, fifo: map<int, seq<int>>, fifo': map<int, seq<int>>, side: Side, ring: seq<int>, best: int)
    requires SideOk(m, fifo, side, ring, best) && |m'.lb| == |m.lb| && fifo'.Keys == fifo.Keys
    requires forall l | l in fifo && 0 <= l < |m.lb| :: SameRung(m'.lb[l].item, m.lb[l].item)
    ensures SideOk(m', fifo', side, ring, best)
  {
    forall i | 0 <= i < |ring|
      ensures RungOk(m, fifo, side, ring[i]) && SameRung(m'.lb[ring[i]].item, m.lb[ring[i]].item)
    {
      assert RungOk(m, fifo, side, ring[i]);
    }
    SideKept(m, m', fifo, fifo', side, ring, best);
  }

  lemma {:induction false} OrdersFrame<O>(
      m: Mem<O>, m': Mem<O>, sh: Shape, bb: int, ba: int, xo: int, xl: int, xo': int)
    requires Inv(m, sh, bb, ba, xo, xl)
    requires m'.lb == m.lb && m'.slots == m.slots
    requires forall l | l in sh.fifo :: MembersKept(m.ob, m'.ob, sh.fifo[l])
    requires LiveOk(m', sh.fifo, xo', xl) && |m'.ob| == |m.ob|
    ensures Inv(m', sh, bb, ba, xo', xl)
  {
    LevelsFrame(m, m', sh.fifo);
    SlotsFrame(m, m', sh.fifo);
    SideFrame(m, m', sh.fifo, sh.fifo, Buy, sh.bids, bb);
    SideFrame(m, m', sh.fifo, sh.fifo, Sell, sh.asks, ba);
  }

  /** Members are blocks in use, and never null. */
  lemma {:induction false} MembersLive<O>(m: Mem<O>, fifo: map<int, seq<int>>, l: int, o: int)
    requires LevelsOk(m, fifo) && l in fifo && o in fifo[l]
    ensures 0 <= o < |m.ob| && !m.ob[o].isFree && 0 <= l < |m.lb| && !m.lb[l].isFree
    ensures m.ob[o].item.order.side == m.lb[l].item.side && m.ob[o].item.order.price == m.lb[l].item.price
    ensures |m.slots| > 0 && m.slots[Slot(m.ob[o].item.order.price, |m.slots|)] == l
  {
  }

  /** A change to a single block that is not in the structure. */
  lemma {:induction false} DetachedWrite<O>(
      m: Mem<O>, m': Mem<O>, sh: Shape, bb: int, ba: int, xo: int, xl: int, o: nat, xo': int)
    requires Inv(m, sh, bb, ba, xo, xl) && o < |m.ob| == |m'.ob|
    requires m' == m.(ob := m.ob[o := m'.ob[o]])
    requires (xo == o || (xo == NULL && m.ob[o].isFree)) && (if m'.ob[o].isFree then xo' == NULL else xo' == o)
    ensures Inv(m', sh, bb, ba, xo', xl)
  {
    forall l, x | l in sh.fifo && x in sh.fifo[l] ensures x != o && x != NULL {
      MembersLive(m, sh.fifo, l, x);
    }
    forall x | 0 <= x < |m'.ob| && !m'.ob[x].isFree && x != xo' ensures InLevel(m', sh.fifo, x) {
      assert InLevel(m, sh.fifo, x);
    }
    OrdersFrame(m, m', sh, bb, ba, xo, xl, xo');
  }

  /** A change of quantity. */
  lemma {:induction false} QtyWrite<O>(m: Mem<O>, m': Mem<O>, sh: Shape, bb: int, ba: int, o: nat, qty: nat)
    requires Inv(m, sh, bb, ba, NULL, NULL) && o < |m.ob|
    requires m' == m.(ob := m.ob[o := m.ob[o].(item := m.ob[o].item.(order := m.ob[o].item.order.(qty := qty)))])
    ensures Inv(m', sh, bb, ba, NULL, NULL)
  {
    QtyLive(m, m', sh.fifo, o);
    hide LevelsOk, SlotsOk, SideOk, LiveOk, MembersKept;
    OrdersFrame(m, m', sh, bb, ba, NULL, NULL, NULL);
  }

  lemma {:induction false} QtyLive<O>(m: Mem<O>, m': Mem<O>, fifo: map<int, seq<int>>, o: nat)
    requires LiveOk(m, fifo, NULL, NULL) && o < |m.ob| == |m'.ob|
    requires m' == m.(ob := m.ob[o := m.ob[o].(item := m.ob[o].item.(order := m'.ob[o].item.order))])
    requires var w, w' := m.ob[o].item.order, m'.ob[o].item.order; w'.side == w.side && w'.price == w.price
    ensures LiveOk(m', fifo, NULL, NULL) && forall l | l in fifo :: MembersKept(m.ob, m'.ob, fifo[l])
  {
    forall x | 0 <= x < |m'.ob| && !m'.ob[x].isFree ensures InLevel(m', fifo, x) {
      assert InLevel(m, fifo, x);
    }
  }

  /** A fresh level, in use but in no ring yet. */
  lemma {:induction false} AllocateLevel<O>(
      m: Mem<O>, m': Mem<O>, sh: Shape, bb: int, ba: int, xo: int, l: nat, node: LevelNode)
    requires Inv(m, sh, bb, ba, xo, NULL) && l < |m.lb| && m.lb[l].isFree
    requires m' == m.(lb := m.lb[l := Block(node, false)])
    ensures Inv(m', sh, bb, ba, xo, l)
  {
    hide LevelsOk, SlotsOk, SideOk, LiveOk, MembersKept;
    FreeIsApart(m, sh.fifo, l);
    AllKept(m.ob, sh.fifo);
    LevelsFrame(m, m', sh.fifo);
    SlotsFrame(m, m', sh.fifo);
    SideFrame(m, m', sh.fifo, sh.fifo, Buy, sh.bids, bb);
    SideFrame(m, m', sh.fifo, sh.fifo, Sell, sh.asks, ba);
    AllocateLive(m, m', sh.fifo, xo, l);
  }

  lemma {:induction false} FreeIsApart<O>(m: Mem<O>, fifo: map<int, seq<int>>, l: nat)
    requires LevelsOk(m, fifo) && l < |m.lb| && m.lb[l].isFree
    ensures l !in fifo
  {
    assert l in fifo ==> LevelOk(m, l, fifo[l]);
  }

  lemma {:induction false} AllKept<O>(ob: seq<Block<OrderNode<O>>>, fifo: map<int, seq<int>>)
    ensures forall k | k in fifo :: MembersKept(ob, ob, fifo[k])
  {
  }

  lemma {:induction false} AllocateLive<O>(m: Mem<O>, m': Mem<O>, fifo: map<int, seq<int>>, xo: int, l: nat)
    requires LiveOk(m, fifo, xo, NULL) && l !in fifo && l < |m.lb| == |m'.lb|
    requires m'.ob == m.ob && m'.slots == m.slots && forall j | 0 <= j < |m.lb| && j != l :: m'.lb[j] == m.lb[j]
    ensures LiveOk(m', fifo, xo, l)
  {
  }

  // ---------------------------------------------------------------- a new level

  /** `l`, holding the single order `o`, goes into the ring of its side at position `k`. */
  ghost predicate LevelAdded<O>(m: Mem<O>, m': Mem<O>, ring: seq<int>, k: nat, l: int, o: int) {
    && 0 <= l < |m.lb| && 0 <= o < |m.ob| && k <= |ring| && |m.slots| > 0
    && m'.ob == m.ob && m.ob[o].item.link == Link(o, o)
    && OrderAt(m.ob, o, m.lb[l].item.side, m.lb[l].item.price) && m.lb[l].item.first == o && !m.lb[l].isFree
    && m.slots[Slot(m.lb[l].item.price, |m.slots|)] == NULL
    && m'.slots == m.slots[Slot(m.lb[l].item.price, |m.slots|) := l]
    && SameLevels(m.lb, m'.lb, NULL)
    && (if ring == [] then m'.lb == m.lb[l := m.lb[l].(item := m.lb[l].item.(link := Link(l, l)))]
        else LinkedIn(LevelLinks(m.lb), LevelLinks(m'.lb), l, Left(ring, k), Right(ring, k)))
  }

  ghost predicate PlacedAt(lb: seq<Block<LevelNode>>, ring: seq<int>, k: nat, l: int) {
    && 0 <= l < |lb| && k <= |ring|
    && (forall i | 0 <= i < k :: Ranked(lb, lb[l].item.side, ring[i], l))
    && (forall i | k <= i < |ring| :: Ranked(lb, lb[l].item.side, l, ring[i]))
  }

  lemma {:induction false} NewLevelLevels<O>(
      m: Mem<O>, m': Mem<O>, fifo: map<int, seq<int>>, ring: seq<int>, k: nat, l: int, o: int)
    requires LevelsOk(m, fifo) && l !in fifo && LevelAdded(m, m', ring, k, l, o)
    ensures LevelsOk(m', fifo[l := [o]])
  {
  }

  lemma {:induction false} NewLevelRing<O>(
      m: Mem<O>, m': Mem<O>, fifo: map<int, seq<int>>, ring: seq<int>, best: int, k: nat, l: int, o: int)
    requires l !in fifo && LevelAdded(m, m', ring, k, l, o) && PlacedAt(m.lb, ring, k, l)
    requires SideOk(m, fifo, m.lb[l].item.side, ring, best)
    ensures SideOk(m', fifo[l := [o]], m.lb[l].item.side, InsertAt(ring, k, l), InsertAt(ring, k, l)[0])
  {
    var side := m.lb[l].item.side;
    var t := InsertAt(ring, k, l);
    assert forall i | 0 <= i < |ring| :: RungOk(m, fifo, side, ring[i]);
    NewLevelRungs(m, m', fifo, ring, k, l, o);
    if ring == [] {
      assert t == [l];
      RingSingle(LevelLinks(m'.lb), l);
    } else {
      RingInsert(LevelLinks(m.lb), LevelLinks(m'.lb), ring, k, l);
    }
    hide RungOk, Ranked, Ring, LinkedIn, PlacedAt, SameLevels, OrderAt;
  }

  lemma {:induction false} NewLevelRungs<O>(
      m: Mem<O>, m': Mem<O>, fifo: map<int, seq<int>>, ring: seq<int>, k: nat, l: int, o: int)
    requires l !in fifo && LevelAdded(m, m', ring, k, l, o) && PlacedAt(m.lb, ring, k, l)
    requires forall i | 0 <= i < |ring| :: RungOk(m, fifo, m.lb[l].item.side, ring[i])
    requires forall i, j | 0 <= i < j < |ring| :: Ranked(m.lb, m.lb[l].item.side, ring[i], ring[j])
    ensures var t, side := InsertAt(ring, k, l), m.lb[l].item.side;
            && (forall i | 0 <= i < |t| :: RungOk(m', fifo[l := [o]], side, t[i]))
            && (forall i, j | 0 <= i < j < |t| :: Ranked(m'.lb, side, t[i], t[j]))
  {
    var side := m.lb[l].item.side;
    var t := InsertAt(ring, k, l);
    assert SameLevels(m.lb, m'.lb, NULL);
    hide LevelAdded;
    forall i | 0 <= i < |t| ensures RungOk(m', fifo[l := [o]], side, t[i]) {
      assert i != k ==> t[i] == ring[if i < k then i else i - 1];
    }
    forall i, j | 0 <= i < j < |t| ensures Ranked(m'.lb, side, t[i], t[j]) {
      var i' := if i < k then i else i - 1;
      var j' := if j < k then j else j - 1;
      assert i != k ==> t[i] == ring[i'];
      assert j != k ==> t[j] == ring[j'];
      if i != k && j != k {
        assert Ranked(m.lb, side, ring[i'], ring[j']);
      } else if i == k {
        assert Ranked(m.lb, side, l, ring[j']);
      } else {
        assert Ranked(m.lb, side, ring[i'], l);
      }
    }
  }

  lemma {:induction false} NewLevelRest<O>(m: Mem<O>, m': Mem<O>, sh: Shape, ring: seq<int>, k: nat, l: int, o: int)
    requires LevelsOk(m, sh.fifo) && SlotsOk(m, sh.fifo) && LiveOk(m, sh.fifo, o, l) && LevelAdded(m, m', ring, k, l, o)
    ensures SlotsOk(m', sh.fifo[l := [o]]) && LiveOk(m', sh.fifo[l := [o]], NULL, NULL)
  {
    var fifo' := sh.fifo[l := [o]];
    forall j | 0 <= j < |m'.slots| ensures SlotOk(m', fifo', j) {
      assert SlotOk(m, sh.fifo, j);
    }
    forall x | 0 <= x < |m'.ob| && !m'.ob[x].isFree ensures InLevel(m', fifo', x) {
      if x != o {
        assert InLevel(m, sh.fifo, x);
        MembersLive(m, sh.fifo, m.slots[Slot(m.ob[x].item.order.price, |m.slots|)], x);
      }
    }
    forall j | j in fifo' ensures NULL !in fifo'[j] {
      if j != l && NULL in fifo'[j] {
        MembersLive(m, sh.fifo, j, NULL);
      }
    }
    forall j | j in sh.fifo ensures j != NULL {
      assert LevelOk(m, j, sh.fifo[j]);
    }
  }

  function WithRing(sh: Shape, side: Side, ring: seq<int>, fifo: map<int, seq<int>>): Shape {
    if side.Buy? then Shape(ring, sh.asks, fifo) else Shape(sh.bids, ring, fifo)
  }

  /** The other side does not notice. */
  lemma {:induction false} NewLevelOther<O>(
      m: Mem<O>, m': Mem<O>, sh: Shape, best: int, k: nat, l: int, o: int, bestOther: int)
    requires l !in sh.fifo && 0 <= l < |m.lb|
    requires LevelAdded(m, m', RingOf(sh, m.lb[l].item.side), k, l, o)
    requires SideOk(m, sh.fifo, m.lb[l].item.side, RingOf(sh, m.lb[l].item.side), best)
    requires SideOk(m, sh.fifo, Opposite(m.lb[l].item.side), RingOf(sh, Opposite(m.lb[l].item.side)), bestOther)
    ensures SideOk(m', sh.fifo[l := [o]], Opposite(m.lb[l].item.side), RingOf(sh, Opposite(m.lb[l].item.side)),
              bestOther)
  {
    var side := m.lb[l].item.side;
    var ring := RingOf(sh, side);
    var other := RingOf(sh, Opposite(side));
    assert forall i | 0 <= i < |ring| :: RungOk(m, sh.fifo, side, ring[i]);
    assert forall i | 0 <= i < |other| :: RungOk(m, sh.fifo, Opposite(side), other[i]);
    SideKept(m, m', sh.fifo, sh.fifo[l := [o]], Opposite(side), other, bestOther);
  }

  ghost predicate Bests(sh: Shape, bb: int, ba: int) {
    bb == (if sh.bids == [] then NULL else sh.bids[0]) && ba == (if sh.asks == [] then NULL else sh.asks[0])
  }

  /** Linking a new level into the ring of its side, at its price, keeps the whole structure. */
  lemma {:induction false} NewLevelInv<O>(
      m: Mem<O>, m': Mem<O>, sh: Shape, bb: int, ba: int, k: nat, l: int, o: int, bb': int, ba': int)
    requires 0 <= l < |m.lb| && Inv(m, sh, bb, ba, o, l)
    requires LevelAdded(m, m', RingOf(sh, m.lb[l].item.side), k, l, o)
    requires PlacedAt(m.lb, RingOf(sh, m.lb[l].item.side), k, l)
    requires Bests(WithRing(sh, m.lb[l].item.side, InsertAt(RingOf(sh, m.lb[l].item.side), k, l), sh.fifo), bb', ba')
    ensures Inv(m', WithRing(sh, m.lb[l].item.side, InsertAt(RingOf(sh, m.lb[l].item.side), k, l), sh.fifo[l := [o]]),
              bb', ba', NULL, NULL)
  {
    hide LevelsOk, SlotsOk, SideOk, Covered, PlacedAt, SameLevels, LinkedIn;
    assert l !in sh.fifo;
    hide LiveOk;
    var side := m.lb[l].item.side;
    var ring := RingOf(sh, side);
    NewLevelLevels(m, m', sh.fifo, ring, k, l, o);
    NewLevelRest(m, m', sh, ring, k, l, o);
    NewLevelRing(m, m', sh.fifo, ring, if side.Buy? then bb else ba, k, l, o);
    NewLevelOther(m, m', sh, if side.Buy? then bb else ba, k, l, o, if side.Buy? then ba else bb);
    NewLevelCovered(m, m', sh, k, l, o);
  }

  lemma {:induction false} NewLevelCovered<O>(m: Mem<O>, m': Mem<O>, sh: Shape, k: nat, l: int, o: int)
    requires 0 <= l < |m.lb| && Covered(m, sh) && LevelAdded(m, m', RingOf(sh, m.lb[l].item.side), k, l, o)
    ensures Covered(m', WithRing(sh, m.lb[l].item.side, InsertAt(RingOf(sh, m.lb[l].item.side), k, l),
              sh.fifo[l := [o]]))
  {
  }

  /** In the represented book the new level's order lands between better and worse prices. */
  lemma {:induction false} NewLevelView<O>(
      m: Mem<O>, m': Mem<O>, fifo: map<int, seq<int>>, ring: seq<int>, k: nat, l: int, o: int)
    requires LevelsOk(m, fifo) && l !in fifo && LevelAdded(m, m', ring, k, l, o) && PlacedAt(m.lb, ring, k, l)
    requires Flattenable(m.ob, fifo, ring)
    ensures Flattenable(m'.ob, fifo[l := [o]], InsertAt(ring, k, l))
    ensures Flat(m'.ob, fifo[l := [o]], InsertAt(ring, k, l)) == Insert(Flat(m.ob, fifo, ring), m.ob[o].item.order)
  {
    hide LevelsOk;
    var w := m.ob[o].item.order;
    var side := m.lb[l].item.side;
    FlatSplit(m.ob, fifo, ring, k);
    FlatInsert(m.ob, fifo, ring, k, l, o);
    FlatAhead(m, fifo, side, ring[..k], w.price);
    assert forall i | 0 <= i < |ring[k..]| :: Ranked(m.lb, side, l, ring[k..][i]);
    FlatBehind(m, fifo, side, ring[k..], w.price);
    InsertSplit(Flat(m.ob, fifo, ring[..k]), Flat(m.ob, fifo, ring[k..]), w);
  }

  lemma {:induction false} FlatInsert<O>(
      ob: seq<Block<OrderNode<O>>>, fifo: map<int, seq<int>>, ring: seq<int>, k: nat, l: int, o: int)
    requires Flattenable(ob, fifo, ring) && l !in fifo && k <= |ring| && 0 <= o < |ob|
    ensures Flattenable(ob, fifo, ring[..k]) && Flattenable(ob, fifo, ring[k..])
    ensures Flattenable(ob, fifo[l := [o]], InsertAt(ring, k, l))
    ensures Flat(ob, fifo[l := [o]], InsertAt(ring, k, l))
         == Flat(ob, fifo, ring[..k]) + [ob[o].item.order] + Flat(ob, fifo, ring[k..])
  {
    var fifo' := fifo[l := [o]];
    FlatSplit(ob, fifo, ring, k);
    FlatFrame(ob, ob, fifo, fifo', ring[..k]);
    FlatFrame(ob, ob, fifo, fifo', ring[k..]);
    FlatThree(ob, fifo', ring[..k], l, ring[k..]);
    assert Queue(ob, [o]) == [ob[o].item.order];
  }

  // ---------------------------------------------------------------- removing an order from a longer queue

  ghost predicate Unlinked<O>(m: Mem<O>, m': Mem<O>, l: int, q: seq<int>, j: nat) {
    && j < |q| && |q| >= 2 && 0 <= l < |m.lb|
    && m'.slots == m.slots && SameOrders(m.ob, m'.ob)
    && LinkedOut(OrderLinks(m.ob), OrderLinks(m'.ob), q[j], Pred(q, j), Succ(q, j))
    && m'.lb == m.lb[l := m.lb[l].(item := m.lb[l].item.(first := RemoveAt(q, j)[0]))]
  }

  lemma {:induction false} UnlinkLevels<O>(m: Mem<O>, m': Mem<O>, fifo: map<int, seq<int>>, l: int, j: nat)
    requires LevelsOk(m, fifo) && l in fifo && Unlinked(m, m', l, fifo[l], j)
    ensures LevelsOk(m', fifo[l := RemoveAt(fifo[l], j)])
  {
    var q := fifo[l];
    var fifo' := fifo[l := RemoveAt(q, j)];
    forall k | k in fifo' ensures LevelOk(m', k, fifo'[k]) {
      assert LevelOk(m, k, fifo[k]);
      assert forall i | 0 <= i < |fifo[k]| :: OrderAt(m.ob, fifo[k][i], m.lb[k].item.side, m.lb[k].item.price);
      if k == l {
        RingRemove(OrderLinks(m.ob), OrderLinks(m'.ob), q, j);
        var t := RemoveAt(q, j);
        assert forall i | 0 <= i < |t| :: t[i] == q[if i < j then i else i + 1];
      } else {
        forall x | x in q ensures x !in fifo[k] {
          if x in fifo[k] {
            OneLevel(m, fifo, l, k, x);
          }
        }
        assert Pred(q, j) in q && Succ(q, j) in q && q[j] in q;
        LevelKept(m, m', k, fifo[k]);
      }
    }
  }

  lemma {:induction false} UnlinkLive<O>(m: Mem<O>, m': Mem<O>, fifo: map<int, seq<int>>, l: int, j: nat)
    requires LevelsOk(m, fifo) && LiveOk(m, fifo, NULL, NULL) && l in fifo && Unlinked(m, m', l, fifo[l], j)
    ensures LiveOk(m', fifo[l := RemoveAt(fifo[l], j)], fifo[l][j], NULL)
  {
    var q := fifo[l];
    var t := RemoveAt(q, j);
    var fifo' := fifo[l := t];
    assert LevelOk(m, l, q);
    RemovedOnly(q, j);
    forall k | k in fifo' ensures q[j] !in fifo'[k] {
      if k != l && q[j] in fifo[k] {
        OneLevel(m, fifo, l, k, q[j]);
      }
    }
    hide LevelsOk, LevelOk, LinkedOut, Injective;
    forall x | 0 <= x < |m'.ob| && !m'.ob[x].isFree && x != q[j] ensures InLevel(m', fifo', x) {
      assert InLevel(m, fifo, x);
    }
  }

  lemma {:induction false} RemovedOnly(q: seq<int>, j: nat)
    requires Injective(q) && j < |q|
    ensures q[j] !in RemoveAt(q, j) && forall x | x in q && x != q[j] :: x in RemoveAt(q, j)
  {
  }

  /** Unlinking an order from a queue of several keeps the whole structure, without that order. */
  lemma {:induction false} UnlinkInv<O>(m: Mem<O>, m': Mem<O>, sh: Shape, bb: int, ba: int, l: int, j: nat)
    requires Inv(m, sh, bb, ba, NULL, NULL) && l in sh.fifo && Unlinked(m, m', l, sh.fifo[l], j)
    ensures Inv(m', sh.(fifo := sh.fifo[l := RemoveAt(sh.fifo[l], j)]), bb, ba, sh.fifo[l][j], NULL)
  {
    var fifo' := sh.fifo[l := RemoveAt(sh.fifo[l], j)];
    UnlinkLevels(m, m', sh.fifo, l, j);
    UnlinkLive(m, m', sh.fifo, l, j);
    SideFrame(m, m', sh.fifo, fifo', Buy, sh.bids, bb);
    SideFrame(m, m', sh.fifo, fifo', Sell, sh.asks, ba);
    UnlinkSlots(m, m', sh, l, j);
  }

  lemma {:induction false} UnlinkSlots<O>(m: Mem<O>, m': Mem<O>, sh: Shape, l: int, j: nat)
    requires SlotsOk(m, sh.fifo) && Covered(m, sh) && l in sh.fifo && Unlinked(m, m', l, sh.fifo[l], j)
    ensures SlotsOk(m', sh.fifo[l := RemoveAt(sh.fifo[l], j)])
    ensures Covered(m', sh.(fifo := sh.fifo[l := RemoveAt(sh.fifo[l], j)]))
  {
    var fifo' := sh.fifo[l := RemoveAt(sh.fifo[l], j)];
    forall k | 0 <= k < |m'.slots| ensures SlotOk(m', fifo', k) {
      assert SlotOk(m, sh.fifo, k);
    }
  }

  lemma {:induction false} WithoutSeqs<O>(a: seq<Order<O>>, b: seq<Order<O>>, c: seq<Order<O>>, j: nat)
    requires j < |b|
    ensures Without(a + (b + c), |a| + j) == a + (Without(b, j) + c)
    ensures (a + (b + c))[|a| + j] == b[j]
  {
  }

  /** In the represented book one order has left its place; all others keep theirs. */
  lemma {:induction false} UnlinkFlat<O>(
      ob: seq<Block<OrderNode<O>>>, ob': seq<Block<OrderNode<O>>>, fifo: map<int, seq<int>>, ring: seq<int>, k: nat,
      j: nat)
    requires Flattenable(ob, fifo, ring) && k < |ring| && j < |fifo[ring[k]]| && SameOrders(ob, ob')
    requires ring[k] !in ring[..k] && ring[k] !in ring[k + 1..]
    ensures Flattenable(ob, fifo, ring[..k])
    ensures var fifo' := fifo[ring[k] := RemoveAt(fifo[ring[k]], j)];
            var s := Flat(ob, fifo, ring);
            var pos := |Flat(ob, fifo, ring[..k])| + j;
            && Flattenable(ob', fifo', ring)
            && pos < |s| && s[pos] == ob[fifo[ring[k]][j]].item.order
            && Flat(ob', fifo', ring) == Without(s, pos)
  {
    var q := fifo[ring[k]];
    var t := RemoveAt(q, j);
    forall i | 0 <= i < |t| ensures 0 <= t[i] < |ob'| {
      assert t[i] == q[if i < j then i else i + 1];
    }
    FlatReplace(ob, ob', fifo, ring, k, t);
    FlatAround(ob, fifo, ring, k);
    assert Queue(ob', t) == Without(Queue(ob, q), j);
    WithoutSeqs(Flat(ob, fifo, ring[..k]), Queue(ob, q), Flat(ob, fifo, ring[k + 1..]), j);
  }

  // ---------------------------------------------------------------- removing a level

  /** The level at position `k` of its ring, holding one order, is unlinked, its slot cleared and its block freed. */
  ghost predicate LevelDropped<O>(m: Mem<O>, m': Mem<O>, ring: seq<int>, k: nat) {
    && k < |ring| && 0 <= ring[k] < |m.lb| && |m.slots| > 0
    && m'.ob == m.ob
    && m'.slots == m.slots[Slot(m.lb[ring[k]].item.price, |m.slots|) := NULL]
    && SameLevels(m.lb, m'.lb, ring[k]) && m'.lb[ring[k]].isFree
    && (if |ring| == 1 then forall j | 0 <= j < |m.lb| && j != ring[k] :: m'.lb[j].item.link == m.lb[j].item.link
        else LinkedOut(LevelLinks(m.lb), LevelLinks(m'.lb), ring[k], Pred(ring, k), Succ(ring, k)))
  }

  lemma {:induction false} DropLevels<O>(m: Mem<O>, m': Mem<O>, fifo: map<int, seq<int>>, ring: seq<int>, k: nat)
    requires LevelsOk(m, fifo) && k < |ring| && ring[k] in fifo && LevelDropped(m, m', ring, k)
    ensures LevelsOk(m', fifo - {ring[k]})
  {
  }

  lemma {:induction false} DropRing<O>(
      m: Mem<O>, m': Mem<O>, fifo: map<int, seq<int>>, side: Side, ring: seq<int>, best: int, k: nat)
    requires SideOk(m, fifo, side, ring, best) && LevelDropped(m, m', ring, k)
    ensures SideOk(m', fifo - {ring[k]}, side, RemoveAt(ring, k), if |ring| == 1 then NULL else RemoveAt(ring, k)[0])
  {
    assert forall i | 0 <= i < |ring| :: RungOk(m, fifo, side, ring[i]);
    RingOnce(m, fifo, side, ring, best, k);
    DropRungs(m, m', fifo, side, ring, k);
    DropRanks(m.lb, m'.lb, side, ring, k);
    if |ring| > 1 {
      RingRemove(LevelLinks(m.lb), LevelLinks(m'.lb), ring, k);
    }
    hide RungOk, Ranked, Ring, LinkedOut, SameLevels;
  }

  lemma {:induction false} DropRungs<O>(
      m: Mem<O>, m': Mem<O>, fifo: map<int, seq<int>>, side: Side, ring: seq<int>, k: nat)
    requires LevelDropped(m, m', ring, k) && ring[k] !in ring[..k] && ring[k] !in ring[k + 1..]
    requires forall i | 0 <= i < |ring| :: RungOk(m, fifo, side, ring[i])
    ensures var t := RemoveAt(ring, k); forall i | 0 <= i < |t| :: RungOk(m', fifo - {ring[k]}, side, t[i])
  {
    var t := RemoveAt(ring, k);
    assert SameLevels(m.lb, m'.lb, ring[k]);
    hide LevelDropped;
    forall i | 0 <= i < |t| ensures RungOk(m', fifo - {ring[k]}, side, t[i]) {
      var i' := if i < k then i else i + 1;
      assert t[i] == ring[i'] && RungOk(m, fifo, side, ring[i']);
      assert ring[i'] in (if i < k then ring[..k] else ring[k + 1..]);
    }
  }

  lemma {:induction false} DropRanks(
      lb: seq<Block<LevelNode>>, lb': seq<Block<LevelNode>>, side: Side, ring: seq<int>, k: nat)
    requires k < |ring| && ring[k] !in ring[..k] && ring[k] !in ring[k + 1..] && SameLevels(lb, lb', ring[k])
    requires forall i, j | 0 <= i < j < |ring| :: Ranked(lb, side, ring[i], ring[j])
    ensures var t := RemoveAt(ring, k); forall i, j | 0 <= i < j < |t| :: Ranked(lb', side, t[i], t[j])
  {
    var t := RemoveAt(ring, k);
    forall i, j | 0 <= i < j < |t| ensures Ranked(lb', side, t[i], t[j]) {
      var i' := if i < k then i else i + 1;
      var j' := if j < k then j else j + 1;
      assert t[i] == ring[i'] && t[j] == ring[j'] && Ranked(lb, side, ring[i'], ring[j']);
      assert ring[i'] in (if i < k then ring[..k] else ring[k + 1..]);
      assert ring[j'] in (if j < k then ring[..k] else ring[k + 1..]);
    }
  }

  lemma {:induction false} DropOther<O>(
      m: Mem<O>, m': Mem<O>, fifo: map<int, seq<int>>, side: Side, ring: seq<int>, best: int, k: nat, other: seq<int>,
      bestOther: int)
    requires SideOk(m, fifo, side, ring, best) && LevelDropped(m, m', ring, k)
    requires SideOk(m, fifo, Opposite(side), other, bestOther)
    ensures SideOk(m', fifo - {ring[k]}, Opposite(side), other, bestOther)
  {
    assert forall i | 0 <= i < |ring| :: RungOk(m, fifo, side, ring[i]);
    assert forall i | 0 <= i < |other| :: RungOk(m, fifo, Opposite(side), other[i]);
    SideKept(m, m', fifo, fifo - {ring[k]}, Opposite(side), other, bestOther);
  }

  lemma {:induction false} DropSlots<O>(m: Mem<O>, m': Mem<O>, fifo: map<int, seq<int>>, ring: seq<int>, k: nat)
    requires SlotsOk(m, fifo) && LevelDropped(m, m', ring, k)
    ensures SlotsOk(m', fifo - {ring[k]})
  {
    forall j | 0 <= j < |m'.slots| ensures SlotOk(m', fifo - {ring[k]}, j) {
      assert SlotOk(m, fifo, j);
    }
  }

  lemma {:induction false} DropLive<O>(m: Mem<O>, m': Mem<O>, fifo: map<int, seq<int>>, ring: seq<int>, k: nat, o: int)
    requires LevelsOk(m, fifo) && LiveOk(m, fifo, NULL, NULL) && LevelDropped(m, m', ring, k)
    requires ring[k] in fifo && fifo[ring[k]] == [o]
    ensures LiveOk(m', fifo - {ring[k]}, o, NULL)
  {
  }

  /** Removing an emptied level keeps the whole structure; its last order is left outside. */
  lemma {:induction false} DropLevelInv<O>(
      m: Mem<O>, m': Mem<O>, sh: Shape, bb: int, ba: int, side: Side, k: nat, o: int, bb': int, ba': int)
    requires Inv(m, sh, bb, ba, NULL, NULL) && LevelDropped(m, m', RingOf(sh, side), k)
    requires RingOf(sh, side)[k] in sh.fifo && sh.fifo[RingOf(sh, side)[k]] == [o]
    requires Bests(WithRing(sh, side, RemoveAt(RingOf(sh, side), k), sh.fifo), bb', ba')
    ensures Inv(m', WithRing(sh, side, RemoveAt(RingOf(sh, side), k), sh.fifo - {RingOf(sh, side)[k]}), bb', ba', o,
              NULL)
  {
    hide LevelsOk, SlotsOk, SideOk, Covered, LiveOk, SameLevels, LinkedOut;
    var ring := RingOf(sh, side);
    var best := if side.Buy? then bb else ba;
    DropLevels(m, m', sh.fifo, ring, k);
    DropSlots(m, m', sh.fifo, ring, k);
    DropLive(m, m', sh.fifo, ring, k, o);
    DropRing(m, m', sh.fifo, side, ring, best, k);
    DropOther(m, m', sh.fifo, side, ring, best, k, RingOf(sh, Opposite(side)), if side.Buy? then ba else bb);
    DropCovered(m, m', sh, side, k);
  }

  lemma {:induction false} DropCovered<O>(m: Mem<O>, m': Mem<O>, sh: Shape, side: Side, k: nat)
    requires Covered(m, sh) && LevelDropped(m, m', RingOf(sh, side), k)
    ensures Covered(m', WithRing(sh, side, RemoveAt(RingOf(sh, side), k), sh.fifo - {RingOf(sh, side)[k]}))
  {
  }

  lemma {:induction false} DropView<O>(
      ob: seq<Block<OrderNode<O>>>, fifo: map<int, seq<int>>, ring: seq<int>, k: nat, o: int)
    requires Flattenable(ob, fifo, ring) && k < |ring| && fifo[ring[k]] == [o]
    requires ring[k] !in ring[..k] && ring[k] !in ring[k + 1..]
    ensures Flattenable(ob, fifo, ring[..k])
    ensures var fifo' := fifo - {ring[k]};
            var s := Flat(ob, fifo, ring);
            var pos := |Flat(ob, fifo, ring[..k])|;
            && Flattenable(ob, fifo', RemoveAt(ring, k))
            && 0 <= o < |ob| && pos < |s| && s[pos] == ob[o].item.order
            && Flat(ob, fifo', RemoveAt(ring, k)) == Without(s, pos)
  {
    var fifo' := fifo - {ring[k]};
    FlatAround(ob, fifo, ring, k);
    var a := Flat(ob, fifo, ring[..k]);
    var c := Flat(ob, fifo, ring[k + 1..]);
    FlatFrame(ob, ob, fifo, fifo', ring[..k]);
    FlatFrame(ob, ob, fifo, fifo', ring[k + 1..]);
    FlatConcat(ob, fifo', ring[..k], ring[k + 1..]);
    var b := Queue(ob, [o]);
    assert ring[k] in fifo && fifo[ring[k]][0] == o;
    assert b == [ob[o].item.order];
    hide Flat, Queue;
    WithoutSeqs(a, b, c, 0);
    assert Without(b, 0) == [] && [] + c == c;
  }
}
