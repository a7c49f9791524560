/**
  The in-place linked order book. The exchange's book and the client's replica run the same pointer
  code on their own pools; `O` is what each records about an order's owner.
*/
module LinkedBooks {
  import opened Types
  import opened PriceTime
  import opened MemPools
  import opened Rings
  import opened Ladder
  import opened LadderOps
  import opened Accounting

  class LinkedBook<O> {
    const orders: MemPool<OrderNode<O>>
    const levels: MemPool<LevelNode>
    const slots: array<int>
    var bestBid: int
    var bestAsk: int
    ghost var shape: Shape

    ghost function Repr(): set<object> {
      {this, orders, orders.store, levels, levels.store, slots}
    }

    ghost function M(): Mem<O>
      reads orders.store, levels.store, slots
    {
      Mem(orders.store[..], levels.store[..], slots[..])
    }

    /** The pools and tables are separate objects. */
    ghost predicate Apart()
    {
      && orders as object != levels as object && orders.store as object != levels.store as object
      && orders.store as object != slots as object && levels.store as object != slots as object
    }

    /** Sound except that the order `xo` and the level `xl` are allocated but not yet, or no longer, linked. */
    ghost predicate ValidBut(xo: int, xl: int)
      reads Repr()
    {
      && Apart() && orders.Valid() && levels.Valid()
      && Inv(M(), shape, bestBid, bestAsk, xo, xl)
    }

    ghost predicate Valid()
      reads Repr()
    {
      ValidBut(NULL, NULL)
    }

    ghost predicate Viewable()
      reads this, orders.store, levels.store, slots
    {
      && LevelsOk(M(), shape.fifo)
      && SideOk(M(), shape.fifo, Buy, shape.bids, bestBid)
      && SideOk(M(), shape.fifo, Sell, shape.asks, bestAsk)
    }

    /** The book that the rings represent. */
    ghost function View(): Book<O>
      requires Viewable()
      reads this, orders.store, levels.store, slots
    {
      BookOf(M(), shape, bestBid, bestAsk)
    }

    constructor (orderCapacity: nat, levelCapacity: nat, slotCount: nat, blank: Order<O>)
      requires orderCapacity > 0 && levelCapacity > 0 && slotCount > 0
      ensures Valid() && Viewable() && fresh(Repr())
      ensures View() == Book([], []) && slots.Length == slotCount
      ensures orders.store.Length == orderCapacity && levels.store.Length == levelCapacity
      ensures forall i | 0 <= i < orderCapacity :: orders.store[i].isFree
      ensures orders.nextFree == 0 && levels.nextFree == 0
      ensures forall i | 0 <= i < levelCapacity :: levels.store[i].isFree
    {
      orders := new MemPool(orderCapacity, OrderNode(blank, Link(NULL, NULL)));
      levels := new MemPool(levelCapacity, LevelNode(Buy, 0, NULL, Link(NULL, NULL)));
      slots := new int[slotCount](_ => NULL);
      bestBid, bestAsk := NULL, NULL;
      shape := Shape([], [], map[]);
      new;
      hide LevelsOk, SlotsOk, SideOk, Covered, LiveOk, BookOf;
      EmptyInv(M());
    }

    /** Whether the pools can hand out a block, read off the book. */
    lemma {:induction false} RoomExactly()
      requires Valid()
      ensures orders.CanAllocate() <==> |View().bids| + |View().asks| + 2 <= orders.store.Length
      ensures levels.CanAllocate() <==>
              Accounting.Levels(View().bids) + Accounting.Levels(View().asks) + 2 <= levels.store.Length
    {
      CapacityExact(orders.store[..], orders.nextFree);
      CapacityExact(levels.store[..], levels.nextFree);
      SideInRange(M(), shape.fifo, Buy, shape.bids, bestBid);
      SideInRange(M(), shape.fifo, Sell, shape.asks, bestAsk);
      OrdersCounted(M(), shape, bestBid, bestAsk);
      LevelsCounted(M(), shape, bestBid, bestAsk);
      hide Inv, AnotherFree, FreeCount, Flat, Levels;
    }

    /** A book that fits the pools with one more order has a block for it, and one for its level if it opens one. */
    lemma {:induction false} Room(w: Order<O>)
      requires Valid() && Fits(Inserted(View(), w), orders.store.Length, levels.store.Length)
      ensures orders.CanAllocate()
      ensures slots[Slot(w.price, slots.Length)] == NULL ==> levels.CanAllocate()
    {
      var s := Half(View(), w.side);
      RoomExactly();
      if slots[Slot(w.price, slots.Length)] == NULL {
        NobodyAt(M(), shape, bestBid, bestAsk, w.side, w.price);
        LevelsInsert(s, w);
      }
      hide Inv, BookOf, LevelsOk, SideOk, AnotherFree, Levels;
    }

    method AllocateOrder(order: Order<O>) returns (o: nat)
      requires Valid() && orders.CanAllocate()
      modifies orders, orders.store
      ensures ValidBut(o, NULL) && View() == old(View())
      ensures o < orders.store.Length && old(orders.store[o].isFree)
      ensures orders.store[..] == old(orders.store[..])[o := Block(OrderNode(order, Link(NULL, NULL)), false)]
    {
      ghost var m := M();
      var ok;
      ok, o := orders.Allocate(OrderNode(order, Link(NULL, NULL)));
      DetachedWrite(m, M(), shape, bestBid, bestAsk, NULL, NULL, o, o);
      DetachedView(m, M(), shape, bestBid, bestAsk, NULL, NULL, o);
    }

    /** The best order of a side, or null. */
    method Best(side: Side) returns (o: int)
      requires Valid()
      ensures o == NULL <==> Half(View(), side) == []
      ensures o != NULL ==>
                && 0 <= o < orders.store.Length && !orders.store[o].isFree
                && orders.store[o].item.order == Half(View(), side)[0]
    {
      var l := if side.Buy? then bestBid else bestAsk;
      if l == NULL {
        o := NULL;
      } else {
        HeadView(M(), shape.fifo, side, RingOf(shape, side), l);
        o := levels.store[l].item.first;
      }
    }

    /** The price of the best level of a side, if there is one. */
    method BestPrice(side: Side) returns (price: Option<int>)
      requires Valid()
      ensures price == if Half(View(), side) == [] then None else Some(Half(View(), side)[0].price)
    {
      var l := if side.Buy? then bestBid else bestAsk;
      if l == NULL {
        price := None;
      } else {
        HeadView(M(), shape.fifo, side, RingOf(shape, side), l);
        price := Some(levels.store[l].item.price);
      }
    }

    /** One more than the priority of the last order at this price, or one if there is none. */
    method GetNextPriority(price: int, ghost side: Side) returns (priority: nat)
      requires Valid() && NoCollision(View(), side, price, slots.Length)
      ensures priority == NextPriority(Half(View(), side), side, price)
    {
      hide LevelsOk, SlotsOk, SideOk, Covered, LiveOk, BookOf, NoCollision;
      var l := slots[Slot(price, slots.Length)];
      if l == NULL {
        EmptyPrice(M(), shape, bestBid, bestAsk, side, price);
        priority := 1;
      } else {
        LastAtPrice(M(), shape, bestBid, bestAsk, side, price, l);
        priority := orders.store[orders.store[levels.store[l].item.first].item.link.prev].item.order.priority + 1;
      }
    }

    /** Add an order at the end of the FIFO queue of its price level, creating the level if there is none. */
    method AddOrder(o: nat)
      requires ValidBut(o, NULL) && o < orders.store.Length && !orders.store[o].isFree
      requires slots[Slot(orders.store[o].item.order.price, slots.Length)] == NULL ==> levels.CanAllocate()
      requires NoCollision(View(), orders.store[o].item.order.side, orders.store[o].item.order.price, slots.Length)
      modifies Repr()
      ensures Valid()
      ensures View() == Inserted(old(View()), old(orders.store[o].item.order))
      ensures SameOrders(old(orders.store[..]), orders.store[..])
      ensures orders.nextFree == old(orders.nextFree)
    {
      var w := orders.store[o].item.order;
      var l := slots[Slot(w.price, slots.Length)];
      if l == NULL {
        AddToNewLevel(o);
      } else {
        AddToLevel(o, l);
      }
    }

    /** Link the order `o` in between its new neighbours `p` and `n`. */
    method LinkIn(o: nat, p: nat, n: nat)
      requires o < orders.store.Length && p < orders.store.Length && n < orders.store.Length && o != p && o != n
      modifies orders.store
      ensures SameOrders(old(orders.store[..]), orders.store[..])
      ensures LinkedIn(OrderLinks(old(orders.store[..])), OrderLinks(orders.store[..]), o, p, n)
      ensures old(orders.Valid()) ==> orders.Valid()
    {
      orders.Write(p, orders.store[p].item.(link := orders.store[p].item.link.(next := o)));
      orders.Write(o, orders.store[o].item.(link := Link(p, n)));
      orders.Write(n, orders.store[n].item.(link := orders.store[n].item.link.(prev := o)));
    }

    method AddToLevel(o: nat, l: int)
      requires ValidBut(o, NULL) && o < orders.store.Length && !orders.store[o].isFree
      requires l == slots[Slot(orders.store[o].item.order.price, slots.Length)] != NULL
      requires NoCollision(View(), orders.store[o].item.order.side, orders.store[o].item.order.price, slots.Length)
      modifies this, orders.store
      ensures Valid()
      ensures View() == Inserted(old(View()), old(orders.store[o].item.order))
      ensures SameOrders(old(orders.store[..]), orders.store[..])
    {
      hide LevelsOk, SlotsOk, SideOk, Covered, LiveOk, BookOf, NoCollision;
      ghost var m := M();
      ghost var k := LevelPosition(m, shape, bestBid, bestAsk, o, orders.store[o].item.order.price, l);
      LevelTail(m, shape, bestBid, bestAsk, o, l, k);
      var first := levels.store[l].item.first;
      var last := orders.store[first].item.link.prev;
      LinkIn(o, last, first);
      AppendDone(m, M(), shape, bestBid, bestAsk, l, k, o);
      shape := shape.(fifo := shape.fifo[l := shape.fifo[l] + [o]]);
    }

    method AddToNewLevel(o: nat)
      requires ValidBut(o, NULL) && o < orders.store.Length && !orders.store[o].isFree
      requires slots[Slot(orders.store[o].item.order.price, slots.Length)] == NULL && levels.CanAllocate()
      modifies Repr()
      ensures Valid()
      ensures View() == Inserted(old(View()), old(orders.store[o].item.order))
      ensures SameOrders(old(orders.store[..]), orders.store[..])
      ensures orders.nextFree == old(orders.nextFree)
    {
      hide LevelsOk, SlotsOk, SideOk, Covered, LiveOk, BookOf;
      ghost var m := M();
      var w := orders.store[o].item.order;
      orders.Write(o, orders.store[o].item.(link := Link(o, o)));
      ghost var m1 := M();
      DetachedWrite(m, m1, shape, bestBid, bestAsk, o, NULL, o, o);
      DetachedView(m, m1, shape, bestBid, bestAsk, o, NULL, o);
      var node := LevelNode(w.side, w.price, o, Link(NULL, NULL));
      var ok, l := levels.Allocate(node);
      AllocateLevel(m1, M(), shape, bestBid, bestAsk, o, l, node);
      AllocateView(m1, M(), shape, bestBid, bestAsk);
      AddOrdersAtPrice(l, o);
    }

    /** Record the new best levels, and the shape that goes with them. */
    method Install(bb: int, ba: int, ghost sh: Shape, ghost xo: int)
      requires Apart() && orders.Valid() && levels.Valid() && Inv(M(), sh, bb, ba, xo, NULL)
      modifies this`bestBid, this`bestAsk, this`shape
      ensures ValidBut(xo, NULL) && M() == old(M()) && shape == sh && bestBid == bb && bestAsk == ba
      ensures View() == BookOf(old(M()), sh, bb, ba)
    {
      hide LevelsOk, SlotsOk, SideOk, Covered, LiveOk, BookOf;
      bestBid, bestAsk, shape := bb, ba, sh;
    }

    /** Put a new level, holding one order, into the slot table and into the ring of its side at its price. */
    method AddOrdersAtPrice(l: nat, ghost o: nat)
      requires ValidBut(o, l) && l < levels.store.Length && o < orders.store.Length && LevelReady(M(), l, o)
      modifies this, levels.store, slots
      ensures Valid()
      ensures View() == Inserted(old(View()), orders.store[o].item.order)
    {
      ghost var m := M();
      var side := levels.store[l].item.side;
      ghost var ring := RingOf(shape, side);
      var best := if side.Buy? then bestBid else bestAsk;
      assert Viewable();
      hide Inv, LevelsOk, SideOk, BookOf, RingFor, LevelReady, LevelAdded, PlacedAt, Bests, Inserted, InsertAt;
      FreshPrice(m, shape, bestBid, bestAsk, o, l);
      var newBest;
      ghost var k;
      newBest, k := PlaceLevel(l, o, best, ring);
      LevelPlaced(m, side, newBest, k, l, o);
    }

    /** The bookkeeping after a level was placed: the best level of its side, and the shape. */
    method LevelPlaced(ghost m: Mem<O>, side: Side, newBest: int, ghost k: nat, ghost l: nat, ghost o: nat)
      requires Apart() && orders.Valid() && levels.Valid() && Inv(m, shape, bestBid, bestAsk, o, l)
               && Bests(shape, bestBid, bestAsk)
      requires l < |m.lb| && o < |m.ob| && side == m.lb[l].item.side && k <= |RingOf(shape, side)|
      requires LevelAdded(m, M(), RingOf(shape, side), k, l, o) && PlacedAt(m.lb, RingOf(shape, side), k, l)
      requires newBest == InsertAt(RingOf(shape, side), k, l)[0]
      modifies this
      ensures Valid() && Viewable()
              && View() == Inserted(BookOf(m, old(shape), old(bestBid), old(bestAsk)), m.ob[o].item.order)
    {
      hide LevelsOk, SlotsOk, SideOk, Covered, LiveOk, BookOf, LevelAdded, PlacedAt;
      var bb, ba := if side.Buy? then newBest else bestBid, if side.Buy? then bestAsk else newBest;
      ghost var sh := WithRing(shape, side, InsertAt(RingOf(shape, side), k, l), shape.fifo[l := [o]]);
      NewLevelDone(m, M(), shape, sh, bestBid, bestAsk, side, k, l, o, bb, ba);
      Install(bb, ba, sh, NULL);
    }

    method PlaceLevel(l: nat, ghost o: nat, best: int, ghost ring: seq<int>) returns (newBest: int, ghost k: nat)
      requires Apart() && RingFor(levels.store[..], l, best, ring) && LevelReady(M(), l, o)
      modifies levels.store, slots
      ensures LevelAdded(old(M()), M(), ring, k, l, o)
      ensures k <= |ring| && PlacedAt(old(levels.store[..]), ring, k, l) && newBest == InsertAt(ring, k, l)[0]
      ensures old(levels.Valid()) ==> levels.Valid()
    {
      slots[Slot(levels.store[l].item.price, slots.Length)] := l;
      newBest, k := LinkLevel(l, best, ring);
    }

    /** Link the level `l` into its ring and say which level is best now. */
    method LinkLevel(l: nat, best: int, ghost ring: seq<int>) returns (newBest: int, ghost k: nat)
      requires RingFor(levels.store[..], l, best, ring)
      modifies levels.store
      ensures SameLevels(old(levels.store[..]), levels.store[..], NULL)
      ensures PlacedAt(old(levels.store[..]), ring, k, l)
      ensures ring == [] ==> levels.store[..] == old(levels.store[..])[l := levels.store[l]]
                             && levels.store[l].item.link == Link(l, l)
      ensures ring != [] ==>
                LinkedIn(LevelLinks(old(levels.store[..])), LevelLinks(levels.store[..]), l, Left(ring, k),
                    Right(ring, k))
      ensures newBest == InsertAt(ring, k, l)[0]
      ensures old(levels.Valid()) ==> levels.Valid()
    {
      if best == NULL {
        RingNotNull(levels.store[..], ring, best);
        k := 0;
        newBest := l;
        levels.Write(l, levels.store[l].item.(link := Link(l, l)));
      } else {
        newBest := best;
        var target, addAfter;
        target, addAfter, k := FindPlace(l, best, ring);
        RingEnds(levels.store[..], ring, k);
        if addAfter {
          if target == best {
            target := levels.store[best].item.link.prev;
          }
          LinkAfter(l, target);
        } else {
          LinkBefore(l, target);
          if Better(levels.store[l].item.side, levels.store[l].item.price, levels.store[best].item.price) {
            assert k == 0 && target == best && (|ring| > 1 ==> ring[1] != best);
            var t := levels.store[target].item;
            levels.Write(target, t.(link := t.link.(next := if t.link.next == best then l else t.link.next)));
            newBest := l;
          }
        }
      }
    }

    /** Walk the ring from the best price to the place of the new level `l`. */
    method FindPlace(l: nat, best: int, ghost ring: seq<int>) returns (target: int, addAfter: bool, ghost k: nat)
      requires RingFor(levels.store[..], l, best, ring) && ring != []
      ensures PlacedAt(levels.store[..], ring, k, l)
      ensures if addAfter then k == |ring| && target == best else k < |ring| && target == ring[k]
    {
      var side := levels.store[l].item.side;
      var price := levels.store[l].item.price;
      ghost var lb := levels.store[..];
      RingNexts(lb, ring);
      hide RingFor;
      target := best;
      k := 0;
      addAfter := Better(side, levels.store[target].item.price, price);
      if addAfter {
        PassLevel(lb, l, best, ring, 0);
        target := levels.store[target].item.link.next;
        k := 1;
        addAfter := Better(side, levels.store[target].item.price, price);
      }
      while addAfter && target != best
        invariant k <= |ring| && target == (if k == |ring| then ring[0] else ring[k])
        invariant Passed(lb, l, ring, k)
        invariant if addAfter then k >= 1 else !Better(side, lb[target].item.price, price) && (k == |ring| ==> k == 0)
        decreases |ring| - k, addAfter
      {
        addAfter := Better(side, levels.store[target].item.price, price);
        if addAfter {
          PassLevel(lb, l, best, ring, k);
          target := levels.store[target].item.link.next;
          k := k + 1;
        }
      }
      PlaceFound(lb, l, best, ring, k);
    }

    method LinkAfter(l: nat, p: nat)
      requires l < levels.store.Length && p < levels.store.Length && l != p
      requires 0 <= levels.store[p].item.link.next < levels.store.Length && levels.store[p].item.link.next != l
      modifies levels.store
      ensures SameLevels(old(levels.store[..]), levels.store[..], NULL)
      ensures LinkedIn(LevelLinks(old(levels.store[..])), LevelLinks(levels.store[..]), l, p,
                old(levels.store[p].item.link.next))
      ensures levels.store[l].isFree == old(levels.store[l].isFree)
      ensures old(levels.Valid()) ==> levels.Valid()
    {
      var n := levels.store[p].item.link.next;
      levels.Write(l, levels.store[l].item.(link := Link(p, n)));
      levels.Write(n, levels.store[n].item.(link := levels.store[n].item.link.(prev := l)));
      levels.Write(p, levels.store[p].item.(link := levels.store[p].item.link.(next := l)));
    }

    method LinkBefore(l: nat, n: nat)
      requires l < levels.store.Length && n < levels.store.Length && l != n
      requires 0 <= levels.store[n].item.link.prev < levels.store.Length && levels.store[n].item.link.prev != l
      modifies levels.store
      ensures SameLevels(old(levels.store[..]), levels.store[..], NULL)
      ensures LinkedIn(LevelLinks(old(levels.store[..])), LevelLinks(levels.store[..]), l,
                old(levels.store[n].item.link.prev), n)
      ensures old(levels.Valid()) ==> levels.Valid()
    {
      var p := levels.store[n].item.link.prev;
      levels.Write(l, levels.store[l].item.(link := Link(p, n)));
      levels.Write(p, levels.store[p].item.(link := levels.store[p].item.link.(next := l)));
      levels.Write(n, levels.store[n].item.(link := levels.store[n].item.link.(prev := l)));
    }

    /** Remove an order from its level, and the level with it if that was its only order; free the blocks. */
    method RemoveOrder(o: nat) returns (ghost pos: nat)
      requires Valid() && o < orders.store.Length && !orders.store[o].isFree
      modifies Repr()
      ensures Valid()
      ensures TookOut(old(View()), View(), old(orders.store[o].item.order), pos)
      ensures orders.store[o].isFree && |orders.store[..]| == |old(orders.store[..])|
      ensures forall x | 0 <= x < orders.store.Length && x != o ::
                orders.store[x].isFree == old(orders.store[x].isFree)
                && orders.store[x].item.order == old(orders.store[x].item.order)
    {
      hide LevelsOk, SlotsOk, SideOk, Covered, LiveOk, BookOf, TookOut, AnotherFree;
      ghost var m := M();
      ghost var k, j;
      k, j := Locate(m, shape, bestBid, bestAsk, o);
      var w := orders.store[o].item.order;
      BestsHold(m, shape, bestBid, bestAsk);
      if orders.store[o].item.link.prev == o {
        pos := RemoveOrdersAtPrice(w.side, w.price, o, k, j);
      } else {
        pos := UnlinkOrder(o, k, j);
      }
      Release(o);
    }

    /** Free the block of an order that is no longer linked. */
    method Release(o: nat)
      requires ValidBut(o, NULL) && o < orders.store.Length && !orders.store[o].isFree
      modifies orders.store
      ensures Valid() && View() == old(View())
      ensures orders.store[..] == old(orders.store[..])[o := Block(old(orders.store[o].item), true)]
    {
      hide LevelsOk, SlotsOk, SideOk, Covered, LiveOk, BookOf;
      ghost var m := M();
      orders.Deallocate(o);
      DetachedWrite(m, M(), shape, bestBid, bestAsk, o, NULL, o, NULL);
      DetachedView(m, M(), shape, bestBid, bestAsk, o, NULL, o);
      forall x | 0 <= x < |m.ob| && m.ob[x].isFree ensures orders.store[..][x].isFree {
      }
    }

    /** Take an order out of a queue that holds others too. */
    method UnlinkOrder(o: nat, ghost k: nat, ghost j: nat) returns (ghost pos: nat)
      requires Valid() && o < orders.store.Length && Located(M(), shape, o, k, j) && orders.store[o].item.link.prev != o
      modifies this, orders.store, levels.store
      ensures ValidBut(o, NULL) && SameOrders(old(orders.store[..]), orders.store[..])
      ensures TookOut(old(View()), View(), old(orders.store[o].item.order), pos)
    {
      ghost var m := M();
      ghost var q := QueueOf(m, shape, o);
      QueueLinks(m, shape, bestBid, bestAsk, o, k, j);
      assert Viewable() && slots.Length > 0;
      hide Inv, LevelsOk, SideOk, BookOf, TookOut, Unlinked, Located, AnotherFree;
      RelinkAround(o, q, j);
      pos := OrderGone(m, o, k, j);
    }

    /** The bookkeeping after an order was unlinked. */
    ghost method OrderGone(m: Mem<O>, o: nat, k: nat, j: nat) returns (pos: nat)
      requires Apart() && orders.Valid() && levels.Valid() && Inv(m, shape, bestBid, bestAsk, NULL, NULL)
               && Located(m, shape, o, k, j)
      requires Unlinked(m, M(), m.slots[Slot(m.ob[o].item.order.price, |m.slots|)], QueueOf(m, shape, o), j)
      modifies this`shape
      ensures ValidBut(o, NULL) && Viewable() && SameOrders(m.ob, orders.store[..])
      ensures TookOut(BookOf(m, old(shape), bestBid, bestAsk), View(), m.ob[o].item.order, pos)
    {
      assert SameOrders(m.ob, orders.store[..]);
      hide LevelsOk, SlotsOk, SideOk, Covered, LiveOk, BookOf, TookOut, Unlinked, Located;
      ghost var sh;
      sh, pos := UnlinkDone(m, M(), shape, bestBid, bestAsk, o, k, j);
      shape := sh;
    }

    method RelinkAround(o: nat, ghost q: seq<int>, ghost j: nat)
      requires Apart() && o < orders.store.Length && j < |q| && |q| >= 2 && q[j] == o && slots.Length > 0
      requires orders.store[o].item.link == Link(Pred(q, j), Succ(q, j))
      requires 0 <= Pred(q, j) < orders.store.Length && 0 <= Succ(q, j) < orders.store.Length
      requires Pred(q, j) != o && Succ(q, j) != o
      requires var l := slots[Slot(orders.store[o].item.order.price, slots.Length)];
               0 <= l < levels.store.Length && levels.store[l].item.first == q[0]
      requires Injective(q)
      modifies orders.store, levels.store
      ensures Unlinked(old(M()), M(), slots[Slot(old(orders.store[o].item.order.price), slots.Length)], q, j)
      ensures old(orders.Valid()) ==> orders.Valid()
      ensures old(levels.Valid()) ==> levels.Valid()
    {
      hide AnotherFree;
      var l := slots[Slot(orders.store[o].item.order.price, slots.Length)];
      var after := orders.store[o].item.link.next;
      ghost var lb := levels.store[..];
      if levels.store[l].item.first == o {
        levels.Write(l, levels.store[l].item.(first := after));
      }
      assert levels.store[..] == lb[l := lb[l].(item := lb[l].item.(first := RemoveAt(q, j)[0]))];
      LinkOut(o);
    }

    method LinkOut(o: nat)
      requires o < orders.store.Length
      requires var k := orders.store[o].item.link;
               0 <= k.prev < orders.store.Length && 0 <= k.next < orders.store.Length && k.prev != o && k.next != o
      modifies orders.store
      ensures SameOrders(old(orders.store[..]), orders.store[..])
      ensures LinkedOut(OrderLinks(old(orders.store[..])), OrderLinks(orders.store[..]), o,
                        old(orders.store[o].item.link.prev), old(orders.store[o].item.link.next))
      ensures old(orders.Valid()) ==> orders.Valid()
    {
      hide AnotherFree;
      var before, after := orders.store[o].item.link.prev, orders.store[o].item.link.next;
      orders.Write(before, orders.store[before].item.(link := orders.store[before].item.link.(next := after)));
      orders.Write(after, orders.store[after].item.(link := orders.store[after].item.link.(prev := before)));
      orders.Write(o, orders.store[o].item.(link := Link(NULL, NULL)));
    }

    /** Take the level of this price, which holds the single order `o`, out of its ring and its slot, and free it. */
    method RemoveOrdersAtPrice(side: Side, price: int, ghost o: nat, ghost k: nat, ghost j: nat)
        returns (ghost pos: nat)
      requires Valid() && o < orders.store.Length && Droppable(M(), shape, bestBid, bestAsk, side, price, o, k, j)
      modifies this, levels.store, slots
      ensures ValidBut(o, NULL) && Viewable()
      ensures TookOut(old(View()), View(), orders.store[o].item.order, pos)
    {
      assert Viewable();
      hide Inv, LevelsOk, SideOk, BookOf, TookOut, LevelDropped, Droppable, RingAt, AnotherFree;
      ghost var m := M();
      LevelToDrop(m, shape, bestBid, bestAsk, side, price, o, k, j);
      var best := if side.Buy? then bestBid else bestAsk;
      var newBest := DropLevel(price, best, RingOf(shape, side), k);
      pos := LevelGone(m, side, price, newBest, o, k, j);
    }

    /** The bookkeeping after a level was dropped. */
    method LevelGone(
        ghost m: Mem<O>, side: Side, ghost price: int, newBest: int, ghost o: nat, ghost k: nat, ghost j: nat)
        returns (ghost pos: nat)
      requires Apart() && orders.Valid() && levels.Valid() && Inv(m, shape, bestBid, bestAsk, NULL, NULL) && o < |m.ob|
      requires Droppable(m, shape, bestBid, bestAsk, side, price, o, k, j)
               && LevelDropped(m, M(), RingOf(shape, side), k)
      requires k < |RingOf(shape, side)| && newBest == NextBest(RingOf(shape, side), k)
      modifies this`bestBid, this`bestAsk, this`shape
      ensures ValidBut(o, NULL) && Viewable()
      ensures TookOut(BookOf(m, old(shape), old(bestBid), old(bestAsk)), View(), m.ob[o].item.order, pos)
    {
      hide LevelsOk, SlotsOk, SideOk, Covered, LiveOk, BookOf, TookOut, LevelDropped, Located;
      var bb, ba := if side.Buy? then newBest else bestBid, if side.Buy? then bestAsk else newBest;
      ghost var sh;
      sh, pos := DropDone(m, M(), shape, bestBid, bestAsk, o, k, j, bb, ba);
      Install(bb, ba, sh, o);
    }

    method DropLevel(price: int, best: int, ghost ring: seq<int>, ghost k: nat) returns (newBest: int)
      requires Apart() && levels.Valid() && k < |ring| && RingAt(M(), ring, k, price) && best == ring[0]
      modifies levels.store, slots
      ensures LevelDropped(old(M()), M(), ring, k)
      ensures newBest == NextBest(ring, k)
      ensures levels.Valid()
    {
      var l := slots[Slot(price, slots.Length)];
      newBest := UnlinkLevel(l, best, ring, k);
      slots[Slot(price, slots.Length)] := NULL;
      levels.Deallocate(l);
    }

    method UnlinkLevel(l: nat, best: int, ghost ring: seq<int>, ghost k: nat) returns (newBest: int)
      requires l < levels.store.Length && k < |ring| && ring[k] == l && best == ring[0]
               && Ring(LevelLinks(levels.store[..]), ring)
      modifies levels.store
      ensures SameLevels(old(levels.store[..]), levels.store[..], l)
      ensures levels.store[l].isFree == old(levels.store[l].isFree)
      ensures if |ring| == 1 then
                forall j | 0 <= j < levels.store.Length && j != l ::
                  levels.store[j].item.link == old(levels.store[j].item.link)
              else
                LinkedOut(LevelLinks(old(levels.store[..])), LevelLinks(levels.store[..]), l,
                          Pred(ring, k), Succ(ring, k))
      ensures newBest == NextBest(ring, k)
      ensures old(levels.Valid()) ==> levels.Valid()
    {
      RingAround(LevelLinks(levels.store[..]), ring, k);
      newBest := best;
      if levels.store[l].item.link.next == l {
        newBest := NULL;
      } else {
        var p, n := levels.store[l].item.link.prev, levels.store[l].item.link.next;
        levels.Write(p, levels.store[p].item.(link := levels.store[p].item.link.(next := n)));
        levels.Write(n, levels.store[n].item.(link := levels.store[n].item.link.(prev := p)));
        if l == best {
          newBest := n;
        }
        levels.Write(l, levels.store[l].item.(link := Link(NULL, NULL)));
      }
    }

    /** A live order has a place in the represented book. */
    lemma {:induction false} OrderInView(o: nat) returns (side: Side, pos: nat)
      requires Valid() && o < orders.store.Length && !orders.store[o].isFree
      ensures pos < |Half(View(), side)| && Half(View(), side)[pos] == orders.store[o].item.order
    {
      hide LevelsOk, SlotsOk, SideOk, Covered, LiveOk;
      var k, j := Locate(M(), shape, bestBid, bestAsk, o);
      side, pos := LocatedView(M(), shape, bestBid, bestAsk, o, k, j);
    }

    /** Write an order's quantity. */
    method SetOrderQty(o: nat, qty: nat) returns (ghost pos: nat)
      requires Valid() && o < orders.store.Length && !orders.store[o].isFree
      modifies orders.store
      ensures Valid()
      ensures var w := old(orders.store[o].item.order);
              && pos < |Half(old(View()), w.side)| && Half(old(View()), w.side)[pos] == w
              && View() == Requantified(old(View()), w.side, pos, qty)
      ensures var node := old(orders.store[o].item);
              orders.store[..]
              == old(orders.store[..])[o := Block(node.(order := node.order.(qty := qty)), false)]
    {
      hide LevelsOk, SlotsOk, SideOk, Covered, LiveOk, BookOf, Requantified;
      ghost var m := M();
      ghost var k, j;
      k, j := Locate(m, shape, bestBid, bestAsk, o);
      orders.Write(o, orders.store[o].item.(order := orders.store[o].item.order.(qty := qty)));
      QtyWrite(m, M(), shape, bestBid, bestAsk, o, qty);
      pos := QtyView(m, M(), shape, bestBid, bestAsk, o, k, j, qty);
    }
  }

  /** Levels of one side, best price first, none at the price of the level `l`. */
  ghost predicate RingFor(lb: seq<Block<LevelNode>>, l: int, best: int, ring: seq<int>) {
    && 0 <= l < |lb| && l !in ring && best == (if ring == [] then NULL else ring[0])
    && (ring != [] ==> Ring(LevelLinks(lb), ring))
    && (forall i, j | 0 <= i < j < |ring| :: Ranked(lb, lb[l].item.side, ring[i], ring[j]))
    && (forall i | 0 <= i < |ring| && 0 <= ring[i] < |lb| :: lb[ring[i]].item.price != lb[l].item.price)
  }

  /** The first `k` levels of the ring all have better prices than `l`. */
  ghost predicate Passed(lb: seq<Block<LevelNode>>, l: int, ring: seq<int>, k: nat) {
    0 <= l < |lb| && k <= |ring| && forall i | 0 <= i < k :: Ranked(lb, lb[l].item.side, ring[i], l)
  }

  lemma {:induction false} RingNexts(lb: seq<Block<LevelNode>>, ring: seq<int>)
    requires Ring(LevelLinks(lb), ring)
    ensures forall i | 0 <= i < |ring| :: 0 <= ring[i] < |lb| && lb[ring[i]].item.link.next == Succ(ring, i)
    ensures forall i | 0 <= i < |ring| :: ring[i] == ring[0] ==> i == 0
  {
    forall i | 0 <= i < |ring| ensures 0 <= ring[i] < |lb| && lb[ring[i]].item.link.next == Succ(ring, i) {
      assert Linked(LevelLinks(lb), ring, i);
    }
  }

  lemma {:induction false} PassLevel(lb: seq<Block<LevelNode>>, l: int, best: int, ring: seq<int>, k: nat)
    requires RingFor(lb, l, best, ring) && k < |ring| && 0 <= ring[k] < |lb|
    requires k == 0 || Passed(lb, l, ring, k)
    requires Better(lb[l].item.side, lb[ring[k]].item.price, lb[l].item.price)
    ensures Passed(lb, l, ring, k + 1)
    ensures k + 1 == |ring| ==> 0 <= ring[0] < |lb| && Better(lb[l].item.side, lb[ring[0]].item.price, lb[l].item.price)
  {
  }

  lemma {:induction false} PlaceFound(lb: seq<Block<LevelNode>>, l: int, best: int, ring: seq<int>, k: nat)
    requires RingFor(lb, l, best, ring) && Passed(lb, l, ring, k)
    requires k < |ring| ==> 0 <= ring[k] < |lb| && !Better(lb[l].item.side, lb[ring[k]].item.price, lb[l].item.price)
    ensures PlacedAt(lb, ring, k, l)
  {
  }

  /** A fresh level holding the single order `o`, at a price whose slot is empty. */
  ghost predicate LevelReady<O>(m: Mem<O>, l: int, o: int) {
    && 0 <= l < |m.lb| && |m.slots| > 0 && !m.lb[l].isFree && m.lb[l].item.first == o
    && OrderAt(m.ob, o, m.lb[l].item.side, m.lb[l].item.price) && m.ob[o].item.link == Link(o, o)
    && m.slots[Slot(m.lb[l].item.price, |m.slots|)] == NULL
  }

  /** Distinct prices in play never share a price slot, and the two sides never share a price. */
  ghost predicate NoCollision<O>(b: Book<O>, side: Side, price: int, n: nat)
    requires n > 0
  {
    && (forall i | 0 <= i < |b.bids| :: SlotsAgree(b.bids[i], side, price, n))
    && (forall i | 0 <= i < |b.asks| :: SlotsAgree(b.asks[i], side, price, n))
  }

  /** Live orders do not share the slot of this price unless they have this price. */
  ghost predicate PriceSafe<O>(b: Book<O>, price: int, n: nat)
    requires n > 0
  {
    && (forall i | 0 <= i < |b.bids| :: Slot(b.bids[i].price, n) == Slot(price, n) ==> b.bids[i].price == price)
    && (forall i | 0 <= i < |b.asks| :: Slot(b.asks[i].price, n) == Slot(price, n) ==> b.asks[i].price == price)
  }

  predicate SlotsAgree<O>(x: Order<O>, side: Side, price: int, n: nat)
    requires n > 0
  {
    Slot(x.price, n) == Slot(price, n) ==> x.price == price && x.side == side
  }

  // ---------------------------------------------------------------- facts about views

  lemma {:induction false} SideInRange<O>(m: Mem<O>, fifo: map<int, seq<int>>, side: Side, ring: seq<int>, best: int)
    requires LevelsOk(m, fifo) && SideOk(m, fifo, side, ring, best)
    ensures Flattenable(m.ob, fifo, ring)
  {
  }

  /** The represented book as a function of the memory and its shape. */
  ghost function BookOf<O>(m: Mem<O>, sh: Shape, bb: int, ba: int): Book<O>
    requires LevelsOk(m, sh.fifo) && SideOk(m, sh.fifo, Buy, sh.bids, bb) && SideOk(m, sh.fifo, Sell, sh.asks, ba)
  {
    SideInRange(m, sh.fifo, Buy, sh.bids, bb);
    SideInRange(m, sh.fifo, Sell, sh.asks, ba);
    Book(Flat(m.ob, sh.fifo, sh.bids), Flat(m.ob, sh.fifo, sh.asks))
  }

  lemma {:induction false} EmptyInv<O>(m: Mem<O>)
    requires |m.slots| > 0 && forall k | 0 <= k < |m.slots| :: m.slots[k] == NULL
    requires (forall o | 0 <= o < |m.ob| :: m.ob[o].isFree) && (forall l | 0 <= l < |m.lb| :: m.lb[l].isFree)
    ensures Inv(m, Shape([], [], map[]), NULL, NULL, NULL, NULL)
    ensures BookOf(m, Shape([], [], map[]), NULL, NULL) == Book([], [])
  {
  }

  lemma {:induction false} BookHalf<O>(m: Mem<O>, sh: Shape, bb: int, ba: int, side: Side)
    requires LevelsOk(m, sh.fifo) && SideOk(m, sh.fifo, Buy, sh.bids, bb) && SideOk(m, sh.fifo, Sell, sh.asks, ba)
    ensures Flattenable(m.ob, sh.fifo, RingOf(sh, side)) && Flattenable(m.ob, sh.fifo, RingOf(sh, Opposite(side)))
    ensures Half(BookOf(m, sh, bb, ba), side) == Flat(m.ob, sh.fifo, RingOf(sh, side))
    ensures Half(BookOf(m, sh, bb, ba), Opposite(side)) == Flat(m.ob, sh.fifo, RingOf(sh, Opposite(side)))
  {
  }

  lemma {:induction false} DetachedView<O>(m: Mem<O>, m': Mem<O>, sh: Shape, bb: int, ba: int, xo: int, xl: int, o: nat)
    requires Inv(m, sh, bb, ba, xo, xl) && o < |m.ob| == |m'.ob|
    requires m' == m.(ob := m.ob[o := m'.ob[o]])
    requires xo == o || (xo == NULL && m.ob[o].isFree)
    requires LevelsOk(m', sh.fifo) && SideOk(m', sh.fifo, Buy, sh.bids, bb) && SideOk(m', sh.fifo, Sell, sh.asks, ba)
    ensures BookOf(m', sh, bb, ba) == BookOf(m, sh, bb, ba)
  {
    forall l, i | l in sh.fifo && 0 <= i < |sh.fifo[l]| ensures sh.fifo[l][i] != o {
      assert sh.fifo[l][i] in sh.fifo[l];
      MembersLive(m, sh.fifo, l, sh.fifo[l][i]);
    }
    SideInRange(m, sh.fifo, Buy, sh.bids, bb);
    SideInRange(m, sh.fifo, Sell, sh.asks, ba);
    FlatFrame(m.ob, m'.ob, sh.fifo, sh.fifo, sh.bids);
    FlatFrame(m.ob, m'.ob, sh.fifo, sh.fifo, sh.asks);
  }

  lemma {:induction false} HeadView<O>(m: Mem<O>, fifo: map<int, seq<int>>, side: Side, ring: seq<int>, best: int)
    requires LevelsOk(m, fifo) && SideOk(m, fifo, side, ring, best) && best != NULL
    ensures Flattenable(m.ob, fifo, ring)
    ensures 0 <= best < |m.lb| && 0 <= m.lb[best].item.first < |m.ob| && !m.ob[m.lb[best].item.first].isFree
    ensures Flat(m.ob, fifo, ring) != [] && Flat(m.ob, fifo, ring)[0] == m.ob[m.lb[best].item.first].item.order
    ensures Flat(m.ob, fifo, ring)[0].price == m.lb[best].item.price
  {
  }

  /** The level found in a slot is in the ring of its side. */
  lemma {:induction false} LevelPosition<O>(m: Mem<O>, sh: Shape, bb: int, ba: int, xo: int, price: int, l: int)
      returns (k: nat)
    requires Inv(m, sh, bb, ba, xo, NULL) && l == m.slots[Slot(price, |m.slots|)] != NULL
    ensures l in sh.fifo && 0 <= l < |m.lb|
    ensures k < |RingOf(sh, m.lb[l].item.side)| && RingOf(sh, m.lb[l].item.side)[k] == l
  {
    assert SlotOk(m, sh.fifo, Slot(price, |m.slots|));
    k :| 0 <= k < |RingOf(sh, m.lb[l].item.side)| && RingOf(sh, m.lb[l].item.side)[k] == l;
  }

  /** With no two live prices sharing a slot, the level found in a price's slot is the level of that price and side. */
  lemma {:induction false} LevelPriceMatches<O>(
      m: Mem<O>, sh: Shape, bb: int, ba: int, xo: int, side: Side, price: int, l: int, k: nat)
    requires Inv(m, sh, bb, ba, xo, NULL) && l == m.slots[Slot(price, |m.slots|)] != NULL
    requires l in sh.fifo && 0 <= l < |m.lb|
    requires k < |RingOf(sh, m.lb[l].item.side)| && RingOf(sh, m.lb[l].item.side)[k] == l
    requires NoCollision(BookOf(m, sh, bb, ba), side, price, |m.slots|)
    ensures m.lb[l].item.price == price && m.lb[l].item.side == side
  {
    assert SlotOk(m, sh.fifo, Slot(price, |m.slots|));
    var ring := RingOf(sh, m.lb[l].item.side);
    SideInRange(m, sh.fifo, m.lb[l].item.side, ring, if m.lb[l].item.side.Buy? then bb else ba);
    FlatAround(m.ob, sh.fifo, ring, k);
    assert LevelOk(m, l, sh.fifo[l]);
    QueuePrices(m, l, sh.fifo[l]);
    var x := Queue(m.ob, sh.fifo[l])[0];
    var s := Flat(m.ob, sh.fifo, ring);
    var p := |Flat(m.ob, sh.fifo, ring[..k])|;
    assert s[p] == x && SlotsAgree(s[p], side, price, |m.slots|);
  }

  /** The ends of a level's queue, as the pointers give them. */
  lemma {:induction false} LevelTail<O>(m: Mem<O>, sh: Shape, bb: int, ba: int, o: int, l: int, k: nat)
    requires Inv(m, sh, bb, ba, o, NULL) && 0 <= o < |m.ob| && !m.ob[o].isFree
    requires l == m.slots[Slot(m.ob[o].item.order.price, |m.slots|)] != NULL
    requires l in sh.fifo && 0 <= l < |m.lb|
    requires k < |RingOf(sh, m.lb[l].item.side)| && RingOf(sh, m.lb[l].item.side)[k] == l
    requires NoCollision(BookOf(m, sh, bb, ba), m.ob[o].item.order.side, m.ob[o].item.order.price, |m.slots|)
    ensures OrderAt(m.ob, o, m.lb[l].item.side, m.lb[l].item.price)
    ensures var q := sh.fifo[l];
            var first := m.lb[l].item.first;
            && q != [] && first == q[0] && 0 <= first < |m.ob| && o != first
            && m.ob[first].item.link.prev == q[|q| - 1] && 0 <= q[|q| - 1] < |m.ob| && o != q[|q| - 1]
  {
    LevelPriceMatches(m, sh, bb, ba, o, m.ob[o].item.order.side, m.ob[o].item.order.price, l, k);
    var q := sh.fifo[l];
    assert LevelOk(m, l, q);
    assert Linked(OrderLinks(m.ob), q, 0);
    assert OrderAt(m.ob, q[|q| - 1], m.lb[l].item.side, m.lb[l].item.price);
  }

  lemma {:induction false} AppendDone<O>(m: Mem<O>, m': Mem<O>, sh: Shape, bb: int, ba: int, l: int, k: nat, o: int)
    requires Inv(m, sh, bb, ba, o, NULL) && l in sh.fifo && 0 <= l < |m.lb|
    requires k < |RingOf(sh, m.lb[l].item.side)| && RingOf(sh, m.lb[l].item.side)[k] == l
    requires OrderAt(m.ob, o, m.lb[l].item.side, m.lb[l].item.price) && Appended(m, m', sh.fifo[l], o)
    ensures var sh' := sh.(fifo := sh.fifo[l := sh.fifo[l] + [o]]);
            Inv(m', sh', bb, ba, NULL, NULL)
            && BookOf(m', sh', bb, ba) == Inserted(BookOf(m, sh, bb, ba), m.ob[o].item.order)
  {
    AppendInv(m, m', sh, bb, ba, l, o);
    AppendBookView(m, m', sh, bb, ba, m.lb[l].item.side, k, o);
  }

  lemma {:induction false} AppendBookView<O>(
      m: Mem<O>, m': Mem<O>, sh: Shape, bb: int, ba: int, side: Side, k: nat, o: int)
    requires Inv(m, sh, bb, ba, o, NULL) && k < |RingOf(sh, side)|
    requires RingOf(sh, side)[k] in sh.fifo && 0 <= RingOf(sh, side)[k] < |m.lb|
    requires Appended(m, m', sh.fifo[RingOf(sh, side)[k]], o)
    requires OrderAt(m.ob, o, side, m.lb[RingOf(sh, side)[k]].item.price)
    requires Inv(m', sh.(fifo := sh.fifo[RingOf(sh, side)[k] := sh.fifo[RingOf(sh, side)[k]] + [o]]), bb, ba, NULL,
               NULL)
    ensures var sh' := sh.(fifo := sh.fifo[RingOf(sh, side)[k] := sh.fifo[RingOf(sh, side)[k]] + [o]]);
            var b := BookOf(m, sh, bb, ba);
            BookOf(m', sh', bb, ba) == WithHalf(b, side, Insert(Half(b, side), m.ob[o].item.order))
  {
    var ring := RingOf(sh, side);
    var other := RingOf(sh, Opposite(side));
    var l := ring[k];
    BookHalf(m, sh, bb, ba, side);
    BookHalf(m', sh.(fifo := sh.fifo[l := sh.fifo[l] + [o]]), bb, ba, side);
    AppendView(m, m', sh.fifo, side, ring, if side.Buy? then bb else ba, k, o);
    NotInOther(m, sh, bb, ba, side, k);
    hide LevelsOk, SlotsOk, SideOk, Covered, LiveOk, LinkedIn, BookOf;
    OtherFlat(m.ob, m'.ob, sh.fifo, other, l, sh.fifo[l] + [o]);
  }

  /** A change to one level's queue does not show in a ring without that level. */
  lemma {:induction false} OtherFlat<O>(
      ob: seq<Block<OrderNode<O>>>, ob': seq<Block<OrderNode<O>>>, fifo: map<int, seq<int>>, ring: seq<int>, l: int,
      q: seq<int>)
    requires Flattenable(ob, fifo, ring) && SameOrders(ob, ob') && l !in ring
    ensures Flattenable(ob', fifo[l := q], ring) && Flat(ob', fifo[l := q], ring) == Flat(ob, fifo, ring)
  {
    FlatFrame(ob, ob', fifo, fifo[l := q], ring);
  }

  /** A level of one side is not in the other side's ring. */
  lemma {:induction false} NotInOther<O>(m: Mem<O>, sh: Shape, bb: int, ba: int, side: Side, k: nat)
    requires SideOk(m, sh.fifo, Buy, sh.bids, bb) && SideOk(m, sh.fifo, Sell, sh.asks, ba) && k < |RingOf(sh, side)|
    ensures RingOf(sh, side)[k] !in RingOf(sh, Opposite(side))
  {
  }

  /** A level stands once in its own ring and nowhere in the other. */
  lemma {:induction false} LevelOnce<O>(m: Mem<O>, sh: Shape, bb: int, ba: int, side: Side, k: nat)
    requires SideOk(m, sh.fifo, Buy, sh.bids, bb) && SideOk(m, sh.fifo, Sell, sh.asks, ba) && k < |RingOf(sh, side)|
    ensures var ring := RingOf(sh, side);
            ring[k] !in ring[..k] && ring[k] !in ring[k + 1..] && ring[k] !in RingOf(sh, Opposite(side))
  {
    hide SideOk;
    RingOnce(m, sh.fifo, side, RingOf(sh, side), if side.Buy? then bb else ba, k);
    NotInOther(m, sh, bb, ba, side, k);
  }

  lemma {:induction false} AllocateView<O>(m: Mem<O>, m': Mem<O>, sh: Shape, bb: int, ba: int)
    requires LevelsOk(m, sh.fifo) && SideOk(m, sh.fifo, Buy, sh.bids, bb) && SideOk(m, sh.fifo, Sell, sh.asks, ba)
    requires LevelsOk(m', sh.fifo) && SideOk(m', sh.fifo, Buy, sh.bids, bb) && SideOk(m', sh.fifo, Sell, sh.asks, ba)
    requires m'.ob == m.ob
    ensures BookOf(m', sh, bb, ba) == BookOf(m, sh, bb, ba)
  {
  }

  /** A price with an empty slot is the price of no level. */
  lemma {:induction false} FreshPrice<O>(m: Mem<O>, sh: Shape, bb: int, ba: int, o: int, l: int)
    requires Inv(m, sh, bb, ba, o, l) && 0 <= l < |m.lb| && LevelReady(m, l, o)
    ensures var ring := RingOf(sh, m.lb[l].item.side);
            RingFor(m.lb, l, if m.lb[l].item.side.Buy? then bb else ba, ring) && Bests(sh, bb, ba)
  {
  }

  lemma {:induction false} RingNotNull(lb: seq<Block<LevelNode>>, ring: seq<int>, best: int)
    requires ring != [] ==> Ring(LevelLinks(lb), ring)
    requires best == (if ring == [] then NULL else ring[0])
    ensures best == NULL <==> ring == []
  {
    if ring != [] {
      assert Linked(LevelLinks(lb), ring, 0);
    }
  }

  /** The ends of a ring and the neighbours of position `k`, read off the links. */
  lemma {:induction false} RingEnds(lb: seq<Block<LevelNode>>, ring: seq<int>, k: nat)
    requires ring != [] && Ring(LevelLinks(lb), ring) && k <= |ring|
    ensures forall i | 0 <= i < |ring| :: 0 <= ring[i] < |lb|
    ensures lb[ring[0]].item.link == Link(ring[|ring| - 1], Succ(ring, 0))
            && lb[ring[|ring| - 1]].item.link.next == ring[0]
    ensures k < |ring| ==> lb[ring[k]].item.link.prev == Left(ring, k)
  {
    forall i | 0 <= i < |ring|
      ensures 0 <= ring[i] < |lb| && lb[ring[i]].item.link == Link(Pred(ring, i), Succ(ring, i))
    {
      assert Linked(LevelLinks(lb), ring, i);
    }
  }

  lemma {:induction false} NewLevelDone<O>(
      m: Mem<O>, m': Mem<O>, sh: Shape, sh': Shape, bb: int, ba: int, side: Side, k: nat, l: int, o: int, bb': int,
          ba': int)
    requires 0 <= l < |m.lb| && 0 <= o < |m.ob| && Inv(m, sh, bb, ba, o, l) && side == m.lb[l].item.side
    requires LevelAdded(m, m', RingOf(sh, side), k, l, o) && PlacedAt(m.lb, RingOf(sh, side), k, l)
    requires sh' == WithRing(sh, side, InsertAt(RingOf(sh, side), k, l), sh.fifo[l := [o]]) && Bests(sh', bb', ba')
    ensures Inv(m', sh', bb', ba', NULL, NULL)
    ensures m.ob[o].item.order.side == side
    ensures BookOf(m', sh', bb', ba') == Inserted(BookOf(m, sh, bb, ba), m.ob[o].item.order)
  {
    hide LevelsOk, SlotsOk, SideOk, Covered, PlacedAt;
    NewLevelInv(m, m', sh, bb, ba, k, l, o, bb', ba');
    SideInRange(m, sh.fifo, Buy, sh.bids, bb);
    SideInRange(m, sh.fifo, Sell, sh.asks, ba);
    NewLevelView(m, m', sh.fifo, RingOf(sh, side), k, l, o);
    var other := RingOf(sh, Opposite(side));
    hide LiveOk, LinkedIn, SameLevels;
    FlatFrame(m.ob, m'.ob, sh.fifo, sh.fifo[l := [o]], other);
  }

  // ---------------------------------------------------------------- finding and removing

  ghost function QueueOf<O>(m: Mem<O>, sh: Shape, o: int): seq<int>
    requires 0 <= o < |m.ob| && InLevel(m, sh.fifo, o)
  {
    sh.fifo[m.slots[Slot(m.ob[o].item.order.price, |m.slots|)]]
  }

  /** Order `o` is at position `j` of the queue of the level at position `k` of its side's ring. */
  ghost predicate Located<O>(m: Mem<O>, sh: Shape, o: int, k: nat, j: nat) {
    && 0 <= o < |m.ob| && !m.ob[o].isFree && InLevel(m, sh.fifo, o)
    && (var w := m.ob[o].item.order;
        && k < |RingOf(sh, w.side)| && RingOf(sh, w.side)[k] == m.slots[Slot(w.price, |m.slots|)]
        && j < |QueueOf(m, sh, o)| && QueueOf(m, sh, o)[j] == o)
  }

  lemma {:induction false} Locate<O>(m: Mem<O>, sh: Shape, bb: int, ba: int, o: int) returns (k: nat, j: nat)
    requires Inv(m, sh, bb, ba, NULL, NULL) && 0 <= o < |m.ob| && !m.ob[o].isFree
    ensures Located(m, sh, o, k, j)
  {
    assert InLevel(m, sh.fifo, o);
    var w := m.ob[o].item.order;
    var l := m.slots[Slot(w.price, |m.slots|)];
    MembersLive(m, sh.fifo, l, o);
    k :| 0 <= k < |RingOf(sh, w.side)| && RingOf(sh, w.side)[k] == l;
    j :| 0 <= j < |sh.fifo[l]| && sh.fifo[l][j] == o;
  }

  lemma {:induction false} RingAround(ls: seq<Link>, s: seq<int>, k: nat)
    requires Ring(ls, s) && k < |s|
    ensures 0 <= s[k] < |ls| && ls[s[k]] == Link(Pred(s, k), Succ(s, k))
    ensures 0 <= Pred(s, k) < |ls| && 0 <= Succ(s, k) < |ls|
    ensures Pred(s, k) == s[k] <==> |s| == 1
    ensures Succ(s, k) == s[k] <==> |s| == 1
  {
    assert Linked(ls, s, k) && Linked(ls, s, if k == 0 then |s| - 1 else k - 1)
           && Linked(ls, s, if k + 1 == |s| then 0 else k + 1);
  }

  lemma {:induction false} QueueLinks<O>(m: Mem<O>, sh: Shape, bb: int, ba: int, o: int, k: nat, j: nat)
    requires Inv(m, sh, bb, ba, NULL, NULL) && Located(m, sh, o, k, j)
    ensures var q := QueueOf(m, sh, o);
            var l := m.slots[Slot(m.ob[o].item.order.price, |m.slots|)];
            && Injective(q) && 0 <= l < |m.lb| && m.lb[l].item.first == q[0]
            && m.ob[o].item.link == Link(Pred(q, j), Succ(q, j))
            && 0 <= Pred(q, j) < |m.ob| && 0 <= Succ(q, j) < |m.ob|
            && (Pred(q, j) == o <==> |q| == 1) && (Succ(q, j) == o <==> |q| == 1)
  {
    var l := m.slots[Slot(m.ob[o].item.order.price, |m.slots|)];
    assert LevelOk(m, l, sh.fifo[l]);
    RingAround(OrderLinks(m.ob), QueueOf(m, sh, o), j);
  }

  lemma {:induction false} UnlinkDone<O>(m: Mem<O>, m': Mem<O>, sh: Shape, bb: int, ba: int, o: int, k: nat, j: nat)
      returns (sh': Shape, pos: nat)
    requires Inv(m, sh, bb, ba, NULL, NULL) && Located(m, sh, o, k, j)
    requires Unlinked(m, m', m.slots[Slot(m.ob[o].item.order.price, |m.slots|)], QueueOf(m, sh, o), j)
    ensures Inv(m', sh', bb, ba, o, NULL)
    ensures TookOut(BookOf(m, sh, bb, ba), BookOf(m', sh', bb, ba), m.ob[o].item.order, pos)
  {
    hide LevelsOk, SlotsOk, SideOk, Covered, LiveOk, LinkedOut;
    var side := m.ob[o].item.order.side;
    var l := RingOf(sh, side)[k];
    sh' := sh.(fifo := sh.fifo[l := RemoveAt(sh.fifo[l], j)]);
    UnlinkInv(m, m', sh, bb, ba, l, j);
    pos := UnlinkBookView(m, m', sh, sh', bb, ba, side, k, j, l, o);
  }

  lemma {:induction false} UnlinkBookView<O>(
      m: Mem<O>, m': Mem<O>, sh: Shape, sh': Shape, bb: int, ba: int, side: Side, k: nat, j: nat, l: int, o: int)
    returns (pos: nat)
    requires Inv(m, sh, bb, ba, NULL, NULL) && Inv(m', sh', bb, ba, o, NULL) && k < |RingOf(sh, side)|
    requires l == RingOf(sh, side)[k] && l in sh.fifo && j < |sh.fifo[l]| && o == sh.fifo[l][j]
             && SameOrders(m.ob, m'.ob)
    requires sh' == sh.(fifo := sh.fifo[l := RemoveAt(sh.fifo[l], j)]) && 0 <= o < |m.ob|
    ensures var b := BookOf(m, sh, bb, ba);
            && pos < |Half(b, side)| && Half(b, side)[pos] == m.ob[o].item.order
            && BookOf(m', sh', bb, ba) == Removed(b, side, pos)
  {
    hide LevelsOk, SlotsOk, SideOk, Covered, LiveOk, BookOf, SameOrders, Flat, Without, RemoveAt;
    var ring := RingOf(sh, side);
    BookHalf(m, sh, bb, ba, side);
    BookHalf(m', sh', bb, ba, side);
    LevelOnce(m, sh, bb, ba, side, k);
    UnlinkFlat(m.ob, m'.ob, sh.fifo, ring, k, j);
    pos := |Flat(m.ob, sh.fifo, ring[..k])| + j;
    OtherFlat(m.ob, m'.ob, sh.fifo, RingOf(sh, Opposite(side)), l, RemoveAt(sh.fifo[l], j));
  }

  /** A ring whose level at `k` is the one in the slot of `price`. */
  ghost predicate RingAt<O>(m: Mem<O>, ring: seq<int>, k: nat, price: int) {
    && k < |ring| && Ring(LevelLinks(m.lb), ring) && |m.slots| > 0
    && 0 <= ring[k] < |m.lb| && !m.lb[ring[k]].isFree && m.lb[ring[k]].item.price == price
    && m.slots[Slot(price, |m.slots|)] == ring[k]
  }

  /** The best level once the level at `k` is gone. */
  function NextBest(ring: seq<int>, k: nat): int
    requires k < |ring|
  {
    if |ring| == 1 then NULL else RemoveAt(ring, k)[0]
  }

  /** `o` is the only order of the level at position `k`. */
  ghost predicate Droppable<O>(m: Mem<O>, sh: Shape, bb: int, ba: int, side: Side, price: int, o: int, k: nat, j: nat) {
    && Located(m, sh, o, k, j) && m.ob[o].item.link.prev == o && Bests(sh, bb, ba)
    && side == m.ob[o].item.order.side && price == m.ob[o].item.order.price
  }

  lemma {:induction false} BestsHold<O>(m: Mem<O>, sh: Shape, bb: int, ba: int)
    requires Inv(m, sh, bb, ba, NULL, NULL)
    ensures Bests(sh, bb, ba)
  {
  }

  lemma {:induction false} LevelToDrop<O>(
      m: Mem<O>, sh: Shape, bb: int, ba: int, side: Side, price: int, o: int, k: nat, j: nat)
    requires Inv(m, sh, bb, ba, NULL, NULL) && Droppable(m, sh, bb, ba, side, price, o, k, j)
    ensures var ring := RingOf(sh, side);
            k < |ring| && RingAt(m, ring, k, price) && (if side.Buy? then bb else ba) == ring[0]
  {
    var ring := RingOf(sh, side);
    assert LevelOk(m, ring[k], sh.fifo[ring[k]]);
    assert o in sh.fifo[ring[k]];
    MembersLive(m, sh.fifo, ring[k], o);
  }

  lemma {:induction false} SoleOrder<O>(m: Mem<O>, sh: Shape, bb: int, ba: int, o: int, k: nat, j: nat)
    requires Inv(m, sh, bb, ba, NULL, NULL) && Located(m, sh, o, k, j) && m.ob[o].item.link.prev == o
    ensures 0 <= o < |m.ob|
    ensures var ring := RingOf(sh, m.ob[o].item.order.side);
            k < |ring| && ring[k] in sh.fifo && sh.fifo[ring[k]] == [o]
  {
    hide LevelsOk, SlotsOk, SideOk, Covered, LiveOk;
    QueueLinks(m, sh, bb, ba, o, k, j);
  }

  lemma {:induction false} DroppedKeeps<O>(m: Mem<O>, m': Mem<O>, ring: seq<int>, k: nat)
    requires LevelDropped(m, m', ring, k)
    ensures m'.ob == m.ob
  {
  }

  lemma {:induction false} DropDone<O>(
      m: Mem<O>, m': Mem<O>, sh: Shape, bb: int, ba: int, o: int, k: nat, j: nat, bb': int, ba': int)
    returns (sh': Shape, pos: nat)
    requires Inv(m, sh, bb, ba, NULL, NULL) && Located(m, sh, o, k, j) && m.ob[o].item.link.prev == o
             && Bests(sh, bb, ba)
    requires var side := m.ob[o].item.order.side;
             var ring := RingOf(sh, side);
             var best := NextBest(ring, k);
             && LevelDropped(m, m', ring, k)
             && bb' == (if side.Buy? then best else bb) && ba' == (if side.Buy? then ba else best)
    ensures Inv(m', sh', bb', ba', o, NULL)
    ensures TookOut(BookOf(m, sh, bb, ba), BookOf(m', sh', bb', ba'), m.ob[o].item.order, pos)
  {
    hide Inv, LevelDropped, Located;
    SoleOrder(m, sh, bb, ba, o, k, j);
    DroppedKeeps(m, m', RingOf(sh, m.ob[o].item.order.side), k);
    var side := m.ob[o].item.order.side;
    var ring := RingOf(sh, side);
    var l := ring[k];
    sh' := WithRing(sh, side, RemoveAt(ring, k), sh.fifo - {l});
    DropLevelInv(m, m', sh, bb, ba, side, k, o, bb', ba');
    pos := DropBookView(m, m', sh, sh', bb, ba, side, k, o, bb', ba');
  }

  lemma {:induction false} DropBookView<O>(
      m: Mem<O>, m': Mem<O>, sh: Shape, sh': Shape, bb: int, ba: int, side: Side, k: nat, o: int, bb': int, ba': int)
    returns (pos: nat)
    requires Inv(m, sh, bb, ba, NULL, NULL) && Inv(m', sh', bb', ba', o, NULL) && m'.ob == m.ob
             && k < |RingOf(sh, side)|
    requires RingOf(sh, side)[k] in sh.fifo && sh.fifo[RingOf(sh, side)[k]] == [o]
    requires sh' == WithRing(sh, side, RemoveAt(RingOf(sh, side), k), sh.fifo - {RingOf(sh, side)[k]})
    ensures var b := BookOf(m, sh, bb, ba);
            && pos < |Half(b, side)| && 0 <= o < |m.ob| && Half(b, side)[pos] == m.ob[o].item.order
            && BookOf(m', sh', bb', ba') == Removed(b, side, pos)
  {
    hide LevelsOk, SlotsOk, SideOk, Covered, LiveOk;
    var ring := RingOf(sh, side);
    BookHalf(m, sh, bb, ba, side);
    BookHalf(m', sh', bb', ba', side);
    RingOnce(m, sh.fifo, side, ring, if side.Buy? then bb else ba, k);
    NotInOther(m, sh, bb, ba, side, k);
    hide BookOf;
    DropView(m.ob, sh.fifo, ring, k, o);
    pos := |Flat(m.ob, sh.fifo, ring[..k])|;
    FlatFrame(m.ob, m'.ob, sh.fifo, sh'.fifo, RingOf(sh, Opposite(side)));
  }

  lemma {:induction false} LocatedView<O>(m: Mem<O>, sh: Shape, bb: int, ba: int, o: int, k: nat, j: nat)
      returns (side: Side, pos: nat)
    requires Inv(m, sh, bb, ba, NULL, NULL) && Located(m, sh, o, k, j)
    ensures var b := BookOf(m, sh, bb, ba); pos < |Half(b, side)| && Half(b, side)[pos] == m.ob[o].item.order
  {
    hide LevelsOk, SlotsOk, SideOk, Covered, LiveOk;
    side := m.ob[o].item.order.side;
    SideInRange(m, sh.fifo, Buy, sh.bids, bb);
    SideInRange(m, sh.fifo, Sell, sh.asks, ba);
    FlatAround(m.ob, sh.fifo, RingOf(sh, side), k);
    pos := |Flat(m.ob, sh.fifo, RingOf(sh, side)[..k])| + j;
  }

  lemma {:induction false} QtyView<O>(
      m: Mem<O>, m': Mem<O>, sh: Shape, bb: int, ba: int, o: int, k: nat, j: nat, qty: nat) returns (pos: nat)
    requires Inv(m, sh, bb, ba, NULL, NULL) && Inv(m', sh, bb, ba, NULL, NULL) && Located(m, sh, o, k, j)
    requires m' == m.(ob := m.ob[o := m.ob[o].(item := m.ob[o].item.(order := m.ob[o].item.order.(qty := qty)))])
    ensures var w := m.ob[o].item.order;
            var b := BookOf(m, sh, bb, ba);
            pos < |Half(b, w.side)| && Half(b, w.side)[pos] == w
            && BookOf(m', sh, bb, ba) == Requantified(b, w.side, pos, qty)
  {
    hide LevelsOk, SlotsOk, SideOk, Covered, LiveOk;
    var side := m.ob[o].item.order.side;
    var ring := RingOf(sh, side);
    var l := ring[k];
    QueueLinks(m, sh, bb, ba, o, k, j);
    BookHalf(m, sh, bb, ba, side);
    BookHalf(m', sh, bb, ba, side);
    RingOnce(m, sh.fifo, side, ring, if side.Buy? then bb else ba, k);
    NotInOther(m, sh, bb, ba, side, k);
    OnlyInLevel(m, sh.fifo, l, o);
    hide LevelsOk, SlotsOk, SideOk, Covered, LiveOk, BookOf;
    pos := QtyFlat(m.ob, m'.ob, sh.fifo, ring, k, j, qty);
    FlatFrame(m.ob, m'.ob, sh.fifo, sh.fifo, RingOf(sh, Opposite(side)));
  }

  lemma {:induction false} OnlyInLevel<O>(m: Mem<O>, fifo: map<int, seq<int>>, l: int, o: int)
    requires LevelsOk(m, fifo) && l in fifo && o in fifo[l]
    ensures forall i | i in fifo && i != l :: o !in fifo[i]
  {
  }

  lemma {:induction false} UpdateSeqs<O>(a: seq<Order<O>>, b: seq<Order<O>>, c: seq<Order<O>>, j: nat, w: Order<O>)
    requires j < |b|
    ensures (a + (b + c))[|a| + j] == b[j]
    ensures (a + (b + c))[|a| + j := w] == a + (b[j := w] + c)
  {
  }

  lemma {:induction false} QtyFlat<O>(
      ob: seq<Block<OrderNode<O>>>, ob': seq<Block<OrderNode<O>>>, fifo: map<int, seq<int>>, ring: seq<int>, k: nat,
      j: nat, qty: nat)
    returns (pos: nat)
    requires Flattenable(ob, fifo, ring) && k < |ring| && j < |fifo[ring[k]]| && Injective(fifo[ring[k]])
    requires ring[k] !in ring[..k] && ring[k] !in ring[k + 1..]
    requires var o := fifo[ring[k]][j];
             && ob' == ob[o := ob[o].(item := ob[o].item.(order := ob[o].item.order.(qty := qty)))]
             && forall i | i in fifo && i != ring[k] :: o !in fifo[i]
    ensures Flattenable(ob', fifo, ring)
    ensures var s := Flat(ob, fifo, ring);
            var o := fifo[ring[k]][j];
            pos < |s| && s[pos] == ob[o].item.order && Flat(ob', fifo, ring) == s[pos := s[pos].(qty := qty)]
  {
    var q := fifo[ring[k]];
    forall i, x | 0 <= i < |ring| && i != k && 0 <= x < |fifo[ring[i]]| ensures fifo[ring[i]][x] != q[j] {
      assert fifo[ring[i]][x] in fifo[ring[i]];
      assert ring[i] == if i < k then ring[..k][i] else ring[k + 1..][i - k - 1];
    }
    FlatReplace(ob, ob', fifo, ring, k, q);
    assert fifo[ring[k] := q] == fifo;
    FlatAround(ob, fifo, ring, k);
    var b := Queue(ob, q);
    assert Queue(ob', q) == b[j := b[j].(qty := qty)];
    pos := |Flat(ob, fifo, ring[..k])| + j;
    UpdateSeqs(Flat(ob, fifo, ring[..k]), b, Flat(ob, fifo, ring[k + 1..]), j, b[j].(qty := qty));
  }

  // ---------------------------------------------------------------- priorities and membership

  /** Every order of a view is in use in the pool. */
  ghost predicate InPool<O>(ob: seq<Block<OrderNode<O>>>, w: Order<O>) {
    exists o | 0 <= o < |ob| :: !ob[o].isFree && ob[o].item.order == w
  }

  lemma {:induction false} FlatInPool<O>(m: Mem<O>, fifo: map<int, seq<int>>, ring: seq<int>, p: nat)
    requires LevelsOk(m, fifo) && Flattenable(m.ob, fifo, ring) && p < |Flat(m.ob, fifo, ring)|
    ensures InPool(m.ob, Flat(m.ob, fifo, ring)[p])
  {
    var q := fifo[ring[0]];
    if p < |q| {
      assert LevelOk(m, ring[0], q);
      assert OrderAt(m.ob, q[p], m.lb[ring[0]].item.side, m.lb[ring[0]].item.price);
      assert !m.ob[q[p]].isFree && m.ob[q[p]].item.order == Flat(m.ob, fifo, ring)[p];
    } else {
      FlatInPool(m, fifo, ring[1..], p - |q|);
      assert Flat(m.ob, fifo, ring)[p] == Flat(m.ob, fifo, ring[1..])[p - |q|];
    }
  }

  lemma {:induction false} ViewInPool<O>(m: Mem<O>, sh: Shape, bb: int, ba: int, side: Side, p: nat)
    requires Inv(m, sh, bb, ba, NULL, NULL) && p < |Half(BookOf(m, sh, bb, ba), side)|
    ensures InPool(m.ob, Half(BookOf(m, sh, bb, ba), side)[p])
  {
    SideInRange(m, sh.fifo, Buy, sh.bids, bb);
    SideInRange(m, sh.fifo, Sell, sh.asks, ba);
    FlatInPool(m, sh.fifo, RingOf(sh, side), p);
  }

  /** No level in the slot: nobody rests at the price. */
  lemma {:induction false} NobodyAt<O>(m: Mem<O>, sh: Shape, bb: int, ba: int, side: Side, price: int)
    requires Inv(m, sh, bb, ba, NULL, NULL) && m.slots[Slot(price, |m.slots|)] == NULL
    ensures var s := Half(BookOf(m, sh, bb, ba), side); forall p | 0 <= p < |s| :: s[p].price != price
  {
    var s := Half(BookOf(m, sh, bb, ba), side);
    forall p | 0 <= p < |s| ensures s[p].price != price {
      SlotNames(m, sh, bb, ba, side, p);
    }
  }

  /** The slot of a resting order's price names the level of that price, which is in use. */
  lemma {:induction false} SlotNames<O>(m: Mem<O>, sh: Shape, bb: int, ba: int, side: Side, p: nat)
    requires Inv(m, sh, bb, ba, NULL, NULL) && p < |Half(BookOf(m, sh, bb, ba), side)|
    ensures var price := Half(BookOf(m, sh, bb, ba), side)[p].price;
            var l := m.slots[Slot(price, |m.slots|)];
            0 <= l < |m.lb| && !m.lb[l].isFree && m.lb[l].item.price == price
  {
    ViewInPool(m, sh, bb, ba, side, p);
    var w := Half(BookOf(m, sh, bb, ba), side)[p];
    var o :| 0 <= o < |m.ob| && !m.ob[o].isFree && m.ob[o].item.order == w;
    assert InLevel(m, sh.fifo, o);
    MembersLive(m, sh.fifo, m.slots[Slot(w.price, |m.slots|)], o);
  }

  lemma {:induction false} EmptyPrice<O>(m: Mem<O>, sh: Shape, bb: int, ba: int, side: Side, price: int)
    requires Inv(m, sh, bb, ba, NULL, NULL) && m.slots[Slot(price, |m.slots|)] == NULL
    ensures NextPriority(Half(BookOf(m, sh, bb, ba), side), side, price) == 1
  {
    NobodyAt(m, sh, bb, ba, side, price);
  }

  lemma {:induction false} LastAtPrice<O>(m: Mem<O>, sh: Shape, bb: int, ba: int, side: Side, price: int, l: int)
    requires Inv(m, sh, bb, ba, NULL, NULL) && l == m.slots[Slot(price, |m.slots|)] != NULL
    requires NoCollision(BookOf(m, sh, bb, ba), side, price, |m.slots|)
    ensures 0 <= l < |m.lb| && 0 <= m.lb[l].item.first < |m.ob|
    ensures var last := m.ob[m.lb[l].item.first].item.link.prev;
            && 0 <= last < |m.ob|
            && NextPriority(Half(BookOf(m, sh, bb, ba), side), side, price) == m.ob[last].item.order.priority + 1
  {
    hide SlotsOk, Covered, LiveOk, NextPriority, Flat, LevelsOk, SideOk, NoCollision;
    var k := LevelPosition(m, sh, bb, ba, NULL, price, l);
    LevelPriceMatches(m, sh, bb, ba, NULL, side, price, l, k);
    var q := sh.fifo[l];
    QueueEnds(m, sh.fifo, l);
    var ring := RingOf(sh, side);
    var best := if side.Buy? then bb else ba;
    SideInRange(m, sh.fifo, side, ring, best);
    FlatAround(m.ob, sh.fifo, ring, k);
    AheadOfLevel(m, sh.fifo, side, ring, best, k);
    BehindLevel(m, sh.fifo, side, ring, best, k);
    QueueAhead(m, sh.fifo, l, side);
    LastSeqs(Flat(m.ob, sh.fifo, ring[..k]), Queue(m.ob, q), Flat(m.ob, sh.fifo, ring[k + 1..]), side, price);
  }

  /** The head of a level's queue knows its last order. */
  lemma {:induction false} QueueEnds<O>(m: Mem<O>, fifo: map<int, seq<int>>, l: int)
    requires LevelsOk(m, fifo) && l in fifo
    ensures 0 <= l < |m.lb| && fifo[l] != []
    ensures var q := fifo[l];
            && m.lb[l].item.first == q[0]
            && OrderAt(m.ob, q[0], m.lb[l].item.side, m.lb[l].item.price)
            && OrderAt(m.ob, q[|q| - 1], m.lb[l].item.side, m.lb[l].item.price)
            && m.ob[q[0]].item.link.prev == q[|q| - 1]
  {
    assert LevelOk(m, l, fifo[l]);
    assert Linked(OrderLinks(m.ob), fifo[l], 0);
  }

  lemma {:induction false} LastSeqs<O>(a: seq<Order<O>>, b: seq<Order<O>>, c: seq<Order<O>>, side: Side, price: int)
    requires Ahead(a, side, price) && Ahead(b, side, price) && Behind(c, side, price) && b != []
             && b[|b| - 1].price == price
    ensures NextPriority(a + (b + c), side, price) == b[|b| - 1].priority + 1
  {
  }
}
