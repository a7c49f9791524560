/**
  Every pool block of a sound book is free or accounted for: orders in use are the orders of the book, levels in use
  are its price levels. So whether a pool can hand out a block is a question about the book alone.
*/
module Accounting {
  import opened Types
  import opened PriceTime
  import opened MemPools
  import opened Rings
  import opened Ladder
  import opened LadderOps

  /** The number of price levels on a side: maximal runs of equal prices. */
  function Levels<O>(s: seq<Order<O>>): nat {
    if s == [] then 0 else Levels(s[1..]) + if |s| > 1 && s[1].price == s[0].price then 0 else 1
  }

  /** A book with room to spare in pools of these sizes: a pool of N blocks serves N - 1 objects. */
  predicate Fits<O>(b: Book<O>, orders: nat, levels: nat) {
    |b.bids| + |b.asks| < orders && Levels(b.bids) + Levels(b.asks) < levels
  }

  // ---------------------------------------------------------------- counting levels

  lemma {:induction false} LevelsSplit<O>(a: seq<Order<O>>, c: seq<Order<O>>)
    requires a != [] && c != [] ==> a[|a| - 1].price != c[0].price
    ensures Levels(a + c) == Levels(a) + Levels(c)
  {
    if a == [] {
      assert a + c == c;
    } else {
      assert (a + c)[1..] == a[1..] + c;
      LevelsSplit(a[1..], c);
    }
  }

  lemma {:induction false} LevelsOne<O>(q: seq<Order<O>>, price: int)
    requires q != [] && forall p | 0 <= p < |q| :: q[p].price == price
    ensures Levels(q) == 1
  {
    if |q| > 1 {
      LevelsOne(q[1..], price);
    }
  }

  /** An order at a price of its own opens a level. */
  lemma {:induction false} LevelsInsert<O>(s: seq<Order<O>>, o: Order<O>)
    requires forall p | 0 <= p < |s| :: s[p].price != o.price
    ensures Levels(Insert(s, o)) == Levels(s) + 1
  {
    var k := Rank(s, o.side, o.price);
    assert s == s[..k] + s[k..];
    LevelsOne([o], o.price);
    LevelsSplit(s[..k] + [o], s[k..]);
    LevelsSplit(s[..k], [o]);
    assert 0 < k < |s| ==> s[k - 1].price != s[k].price;
    LevelsSplit(s[..k], s[k..]);
  }

  // ---------------------------------------------------------------- counting blocks

  ghost function Used<T>(s: seq<Block<T>>): set<int> {
    set i | 0 <= i < |s| && !s[i].isFree
  }

  lemma {:induction false} FreeCountLast<T>(s: seq<Block<T>>)
    requires s != []
    ensures FreeCount(s) == FreeCount(s[..|s| - 1]) + if s[|s| - 1].isFree then 1 else 0
  {
    if |s| > 1 {
      FreeCountLast(s[1..]);
      assert s[1..][..|s| - 2] == s[..|s| - 1][1..];
    }
  }

  lemma {:induction false} UsedAndFree<T>(s: seq<Block<T>>)
    ensures FreeCount(s) + |Used(s)| == |s|
  {
    if s == [] {
      assert Used(s) == {};
    } else {
      var t := s[..|s| - 1];
      FreeCountLast(s);
      UsedAndFree(t);
      assert Used(s) == if s[|s| - 1].isFree then Used(t) else Used(t) + {|s| - 1};
    }
  }

  ghost function Members(s: seq<int>): set<int> {
    set x | x in s
  }

  lemma {:induction false} MembersSize(s: seq<int>)
    requires Injective(s)
    ensures |Members(s)| == |s|
  {
    if s == [] {
      assert Members(s) == {};
    } else {
      var t := s[..|s| - 1];
      MembersSize(t);
      assert s == t + [s[|s| - 1]];
      assert Members(s) == Members(t) + {s[|s| - 1]};
    }
  }

  // ---------------------------------------------------------------- what the rings account for

  /** The pool indices of all orders of some levels. */
  ghost function Held(fifo: map<int, seq<int>>, ring: seq<int>): seq<int>
    requires forall i | 0 <= i < |ring| :: ring[i] in fifo
  {
    if ring == [] then [] else fifo[ring[0]] + Held(fifo, ring[1..])
  }

  lemma {:induction false} HeldIn(fifo: map<int, seq<int>>, ring: seq<int>, o: int)
    requires forall i | 0 <= i < |ring| :: ring[i] in fifo
    ensures o in Held(fifo, ring) <==> exists i | 0 <= i < |ring| :: o in fifo[ring[i]]
  {
    if ring != [] {
      HeldIn(fifo, ring[1..], o);
      if exists i | 0 <= i < |ring| :: o in fifo[ring[i]] {
        var i :| 0 <= i < |ring| && o in fifo[ring[i]];
        assert i > 0 ==> ring[1..][i - 1] == ring[i];
      }
      if exists i | 0 <= i < |ring[1..]| :: o in fifo[ring[1..][i]] {
        var i :| 0 <= i < |ring[1..]| && o in fifo[ring[1..][i]];
        assert ring[1..][i] == ring[i + 1];
      }
    }
  }

  lemma {:induction false} HeldLength<O>(ob: seq<Block<OrderNode<O>>>, fifo: map<int, seq<int>>, ring: seq<int>)
    requires Flattenable(ob, fifo, ring)
    ensures |Held(fifo, ring)| == |Flat(ob, fifo, ring)|
  {
    if ring != [] {
      HeldLength(ob, fifo, ring[1..]);
    }
  }

  /** No order stands in two queues: its price slot names its level. */
  lemma {:induction false} HeldOnce<O>(m: Mem<O>, fifo: map<int, seq<int>>, ring: seq<int>)
    requires LevelsOk(m, fifo) && Injective(ring) && forall i | 0 <= i < |ring| :: ring[i] in fifo
    ensures Injective(Held(fifo, ring))
  {
    if ring != [] {
      HeldOnce(m, fifo, ring[1..]);
      var q, rest := fifo[ring[0]], Held(fifo, ring[1..]);
      assert LevelOk(m, ring[0], q);
      forall x | x in q && x in rest ensures false {
        HeldIn(fifo, ring[1..], x);
        var i :| 0 <= i < |ring[1..]| && x in fifo[ring[1..][i]];
        MembersLive(m, fifo, ring[0], x);
        MembersLive(m, fifo, ring[i + 1], x);
      }
      AppendOnce(q, rest);
    }
  }

  lemma {:induction false} AppendOnce(a: seq<int>, b: seq<int>)
    requires Injective(a) && Injective(b) && forall x | x in a :: x !in b
    ensures Injective(a + b)
  {
    forall i, j | 0 <= i < j < |a + b| ensures (a + b)[i] != (a + b)[j] {
      if i < |a| <= j {
        assert a[i] in a && b[j - |a|] in b;
      }
    }
  }

  ghost function BothRings(sh: Shape): seq<int> {
    sh.bids + sh.asks
  }

  /** Both rings together list every level in use, once. */
  lemma {:induction false} LevelsListed<O>(m: Mem<O>, sh: Shape, bb: int, ba: int)
    requires Inv(m, sh, bb, ba, NULL, NULL)
    ensures Injective(BothRings(sh)) && Members(BothRings(sh)) == Used(m.lb)
    ensures forall i | 0 <= i < |BothRings(sh)| :: BothRings(sh)[i] in sh.fifo
  {
    RingsApart(m, sh, bb, ba);
    forall l ensures l in BothRings(sh) <==> l in Used(m.lb) {
      if l in Used(m.lb) {
        assert l in sh.fifo && l in RingOf(sh, m.lb[l].item.side);
      }
      if l in BothRings(sh) {
        assert l in sh.fifo;
        assert LevelOk(m, l, sh.fifo[l]);
      }
    }
  }

  lemma {:induction false} RingsApart<O>(m: Mem<O>, sh: Shape, bb: int, ba: int)
    requires Inv(m, sh, bb, ba, NULL, NULL)
    ensures Injective(BothRings(sh)) && forall l | l in BothRings(sh) :: l in sh.fifo
  {
    forall i | 0 <= i < |sh.bids| ensures RungOk(m, sh.fifo, Buy, sh.bids[i]) {
    }
    forall i | 0 <= i < |sh.asks| ensures RungOk(m, sh.fifo, Sell, sh.asks[i]) {
    }
    AppendOnce(sh.bids, sh.asks);
  }

  lemma {:induction false} OrdersListed<O>(m: Mem<O>, sh: Shape, bb: int, ba: int)
    requires Inv(m, sh, bb, ba, NULL, NULL)
    requires Injective(BothRings(sh)) && forall i | 0 <= i < |BothRings(sh)| :: BothRings(sh)[i] in sh.fifo
    ensures Members(Held(sh.fifo, BothRings(sh))) == Used(m.ob) && Injective(Held(sh.fifo, BothRings(sh)))
  {
    var ring := BothRings(sh);
    HeldOnce(m, sh.fifo, ring);
    forall o ensures o in Held(sh.fifo, ring) <==> o in Used(m.ob) {
      HeldIn(sh.fifo, ring, o);
      if o in Used(m.ob) {
        assert InLevel(m, sh.fifo, o);
        var l := m.slots[Slot(m.ob[o].item.order.price, |m.slots|)];
        assert l in RingOf(sh, m.lb[l].item.side) && l in ring;
        var i :| 0 <= i < |ring| && ring[i] == l;
      }
      if o in Held(sh.fifo, ring) {
        var i :| 0 <= i < |ring| && o in sh.fifo[ring[i]];
        MembersLive(m, sh.fifo, ring[i], o);
      }
    }
  }

  /** A ring is as long as its side has price levels. */
  lemma {:induction false} RingLevels<O>(m: Mem<O>, fifo: map<int, seq<int>>, side: Side, ring: seq<int>)
    requires LevelsOk(m, fifo) && Flattenable(m.ob, fifo, ring)
    requires forall i, j | 0 <= i < j < |ring| :: Ranked(m.lb, side, ring[i], ring[j])
    ensures Levels(Flat(m.ob, fifo, ring)) == |ring|
  {
    if ring != [] {
      var q, rest := Queue(m.ob, fifo[ring[0]]), Flat(m.ob, fifo, ring[1..]);
      assert LevelOk(m, ring[0], fifo[ring[0]]);
      QueuePrices(m, ring[0], fifo[ring[0]]);
      var price := m.lb[ring[0]].item.price;
      forall i | 0 <= i < |ring[1..]| && 0 <= ring[1..][i] < |m.lb|
        ensures Better(side, price, m.lb[ring[1..][i]].item.price)
      {
        assert Ranked(m.lb, side, ring[0], ring[i + 1]);
      }
      FlatBehind(m, fifo, side, ring[1..], price);
      LevelsOne(q, price);
      LevelsSplit(q, rest);
      forall i, j | 0 <= i < j < |ring[1..]| ensures Ranked(m.lb, side, ring[1..][i], ring[1..][j]) {
        assert Ranked(m.lb, side, ring[i + 1], ring[j + 1]);
      }
      RingLevels(m, fifo, side, ring[1..]);
    }
  }

  /** Blocks in use, counted in the book. */
  lemma {:induction false} OrdersCounted<O>(m: Mem<O>, sh: Shape, bb: int, ba: int)
    requires Inv(m, sh, bb, ba, NULL, NULL) && Flattenable(m.ob, sh.fifo, sh.bids)
             && Flattenable(m.ob, sh.fifo, sh.asks)
    ensures FreeCount(m.ob) + |Flat(m.ob, sh.fifo, sh.bids)| + |Flat(m.ob, sh.fifo, sh.asks)| == |m.ob|
  {
    var ring := BothRings(sh);
    LevelsListed(m, sh, bb, ba);
    OrdersListed(m, sh, bb, ba);
    hide Inv, Injective, Held, Flat;
    MembersSize(Held(sh.fifo, ring));
    UsedAndFree(m.ob);
    assert Flattenable(m.ob, sh.fifo, ring);
    HeldLength(m.ob, sh.fifo, ring);
    FlatConcat(m.ob, sh.fifo, sh.bids, sh.asks);
  }

  lemma {:induction false} LevelsCounted<O>(m: Mem<O>, sh: Shape, bb: int, ba: int)
    requires Inv(m, sh, bb, ba, NULL, NULL) && Flattenable(m.ob, sh.fifo, sh.bids)
             && Flattenable(m.ob, sh.fifo, sh.asks)
    ensures FreeCount(m.lb) + Levels(Flat(m.ob, sh.fifo, sh.bids)) + Levels(Flat(m.ob, sh.fifo, sh.asks)) == |m.lb|
  {
    LevelsListed(m, sh, bb, ba);
    MembersSize(BothRings(sh));
    UsedAndFree(m.lb);
    RingLevels(m, sh.fifo, Buy, sh.bids);
    RingLevels(m, sh.fifo, Sell, sh.asks);
  }
}
