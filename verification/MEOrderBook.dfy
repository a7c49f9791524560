/** The exchange's order book of one ticker: the linked book, the client order index, and the messages it sends. */
module MEOrderBooks {
  import opened Types
  import opened PriceTime
  import opened Matching
  import opened MemPools
  import opened Rings
  import opened Ladder
  import opened LinkedBooks
  import opened Accounting

  class MEOrderBook {
    const ticker: nat
    const book: LinkedBook<Owner>
    /** `cid_oid_to_order_`: pool index of the live order of a client with a client order id, or null. */
    const index: array2<int>
    var nextId: nat
    /** Everything written to the client response queue and to the market update queue. */
    var resps: seq<Response>
    var upds: seq<Update>

    ghost function Repr(): set<object> {
      {this, index} + book.Repr()
    }

    ghost predicate IndexEntryOk(c: nat, k: nat)
      requires c < index.Length0 && k < index.Length1
      reads index, book.orders.store
    {
      index[c, k] == NULL ||
      (&& 0 <= index[c, k] < book.orders.store.Length && !book.orders.store[index[c, k]].isFree
       && book.orders.store[index[c, k]].item.order.owner == Owner(c, k))
    }

    ghost predicate Indexed(o: nat)
      requires o < book.orders.store.Length
      reads index, book.orders.store
    {
      var w := book.orders.store[o].item.order.owner;
      w.client < index.Length0 && w.coid < index.Length1 && index[w.client, w.coid] == o
    }

    /** The index names exactly the live orders. */
    ghost predicate IndexOk()
      reads index, book.orders.store
    {
      && (forall c, k | 0 <= c < index.Length0 && 0 <= k < index.Length1 :: IndexEntryOk(c, k))
      && (forall o | 0 <= o < book.orders.store.Length && !book.orders.store[o].isFree :: Indexed(o))
    }

    ghost predicate Valid()
      reads Repr()
    {
      && this !in book.Repr() && index !in book.Repr()
      && book.Valid() && nextId >= 1
      && Matching.Inv(Exchange(book.View(), nextId))
      && IndexOk()
    }

    /** The abstract exchange this object implements. */
    ghost function X(): Exchange
      requires book.Viewable()
      reads this, book, book.orders.store, book.levels.store, book.slots
    {
      Exchange(book.View(), nextId)
    }

    constructor (ticker: nat, orders: nat, levels: nat, clients: nat, orderIds: nat)
      requires orders > 0 && levels > 0
      ensures Valid() && X() == EMPTY && resps == [] && upds == []
      ensures fresh(index) && fresh(book.Repr())
      ensures this.ticker == ticker && index.Length0 == clients && index.Length1 == orderIds
    {
      this.ticker := ticker;
      index := new int[clients, orderIds]((_, _) => NULL);
      book := new LinkedBook(orders, levels, levels, Order(Owner(0, 0), 0, Buy, 0, 0, 0));
      nextId := 1;
      resps, upds := [], [];
      new;
      hide Ladder.Inv, BookOf, LevelsOk, SideOk, Matching.Inv;
      assert this !in book.Repr() && index !in book.Repr();
      NothingHeld();
      assert X() == EMPTY;
      assert IndexOk();
      hide X, IndexOk;
    }

    /** Remove an order from the book, the index and the pool. */
    method RemoveOrder(o: nat) returns (ghost pos: nat)
      requires this !in book.Repr() && index !in book.Repr() && book.Valid() && IndexOk()
      requires o < book.orders.store.Length && !book.orders.store[o].isFree
      modifies index, book.Repr()
      ensures book.Valid() && IndexOk()
      ensures var w := old(book.orders.store[o].item.order);
              && pos < |Half(old(book.View()), w.side)| && Half(old(book.View()), w.side)[pos] == w
              && book.View() == Removed(old(book.View()), w.side, pos)
    {
      hide Ladder.Inv, BookOf, AnotherFree;
      var w := book.orders.store[o].item.order.owner;
      assert Indexed(o);
      pos := book.RemoveOrder(o);
      index[w.client, w.coid] := NULL;
      forall c, k | 0 <= c < index.Length0 && 0 <= k < index.Length1 ensures IndexEntryOk(c, k) {
        assert old(IndexEntryOk(c, k));
      }
      forall x | 0 <= x < book.orders.store.Length && !book.orders.store[x].isFree ensures Indexed(x) {
        assert x != o && old(Indexed(x));
      }
    }

    /** Match the incoming order against the passive order at the front of the opposite side. */
    method Match(inc: Incoming, o: nat, leaves: nat) returns (rest: nat)
      requires Valid() && o < book.orders.store.Length && !book.orders.store[o].isFree
      requires CanMatch(inc, Half(book.View(), Opposite(inc.side)), leaves)
      requires book.orders.store[o].item.order == Half(book.View(), Opposite(inc.side))[0]
      modifies this`resps, this`upds, index, book.Repr()
      ensures Valid()
      ensures var m := MatchHead(inc, Half(old(book.View()), Opposite(inc.side)), leaves);
              && book.View() == WithHalf(old(book.View()), Opposite(inc.side), m.opp) && rest == m.leaves
              && resps == old(resps) + m.resps && upds == old(upds) + m.upds
    {
      hide LevelsOk, SlotsOk, SideOk, Covered, LiveOk, BookOf, AnotherFree, Matching.Inv;
      ghost var b := book.View();
      ghost var side := Opposite(inc.side);
      var order := book.orders.store[o].item.order;
      HeadFacts(Exchange(b, nextId), side);
      var fill := Min(leaves, order.qty);
      rest := leaves - fill;
      ghost var p := book.SetOrderQty(o, order.qty - fill);
      OnlyHead(Exchange(b, nextId), side, p);
      forall c, k | 0 <= c < index.Length0 && 0 <= k < index.Length1 ensures IndexEntryOk(c, k) {
        assert old(IndexEntryOk(c, k));
      }
      forall x | 0 <= x < book.orders.store.Length && !book.orders.store[x].isFree ensures Indexed(x) {
        assert old(Indexed(x));
      }
      resps := resps + [AggressorFill(inc, order.price, fill, rest),
          PassiveFill(inc.ticker, order, fill, order.qty - fill)];
      upds := upds + [Trade(inc.ticker, inc.side, order.price, fill)];
      if order.qty - fill == 0 {
        upds := upds + [Update.Cancel(order.id, inc.ticker, order.side, order.price, order.qty, PRIORITY_INVALID)];
        p := RemoveOrder(o);
        OnlyHeadAfter(Exchange(b, nextId), side, 0, p);
      } else {
        upds := upds + [Modify(order.id, inc.ticker, order.side, order.price, order.qty - fill, order.priority)];
      }
      assert book.View() == WithHalf(b, side, MatchHead(inc, Half(b, side), leaves).opp);
      MatchHeadInv(Exchange(b, nextId), inc, leaves);
    }

    /** Match an incoming order until it is filled or nothing on the other side crosses it. */
    method CheckForMatch(inc: Incoming, qty: nat) returns (leaves: nat)
      requires Valid()
      modifies this`resps, this`upds, index, book.Repr()
      ensures Valid()
      ensures var m := MatchAll(inc, Half(old(book.View()), Opposite(inc.side)), qty);
              && book.View() == WithHalf(old(book.View()), Opposite(inc.side), m.opp) && leaves == m.leaves
              && resps == old(resps) + m.resps && upds == old(upds) + m.upds
    {
      hide LevelsOk, SlotsOk, SideOk, Covered, LiveOk, BookOf, AnotherFree, Matching.Inv, IndexOk, MatchHead, MatchAll;
      ghost var b := book.View();
      ghost var opp := Half(b, Opposite(inc.side));
      ghost var done := Matched(opp, qty, [], []);
      leaves := qty;
      while leaves != 0
        invariant Valid()
        invariant book.View() == WithHalf(b, Opposite(inc.side), done.opp) && leaves == done.leaves
        invariant resps == old(resps) + done.resps && upds == old(upds) + done.upds
        invariant MatchAll(inc, opp, qty) == Then(done, MatchAll(inc, done.opp, done.leaves))
        decreases |done.opp| + leaves
      {
        var o := book.Best(Opposite(inc.side));
        if o == NULL || !Crosses(inc.side, inc.price, book.orders.store[o].item.order.price) {
          break;
        }
        MatchAllStep(Exchange(book.View(), nextId), inc, done);
        leaves := Match(inc, o, leaves);
        done := Then(done, MatchHead(inc, done.opp, done.leaves));
      }
      MatchAllStops(inc, done.opp, leaves);
    }

    /** Accept a new order, match it, and rest what is left of it. */
    method Add(client: nat, coid: nat, side: Side, price: int, qty: nat)
      requires Valid() && client < index.Length0 && coid < index.Length1
      requires !Live(book.View(), Owner(client, coid))
      requires PriceSafe(book.View(), price, book.slots.Length)
      requires Fits(AddOrder(X(), client, coid, ticker, side, price, qty).exchange.book, book.orders.store.Length,
                 book.levels.store.Length)
      modifies Repr()
      ensures Valid()
      ensures var out := AddOrder(old(X()), client, coid, ticker, side, price, qty);
              X() == out.exchange && resps == old(resps) + out.resps && upds == old(upds) + out.upds
    {
      hide LevelsOk, SlotsOk, SideOk, Covered, LiveOk, BookOf, AnotherFree, Matching.Inv, IndexOk, PriceSafe,
          NoCollision, Live, Fits, MatchAll;
      ghost var x := X();
      var id := nextId;
      var owner := Owner(client, coid);
      InvLater(x);
      nextId := nextId + 1;
      resps := resps + [Accepted(client, ticker, coid, id, side, price, qty)];
      ghost var sent := resps;
      var inc := Incoming(ticker, owner, id % TWO_32, side, price);
      var leaves := CheckForMatch(inc, qty);
      ghost var m := MatchAll(inc, Half(x.book, Opposite(side)), qty);
      assert resps == old(resps) + ([Accepted(client, ticker, coid, id, side, price, qty)] + m.resps);
      if leaves != 0 {
        AfterMatching(x, inc, qty, book.slots.Length);
        Rest(owner, id, side, price, leaves);
      }
    }

    /** Rest the remainder of an order at the end of its price level and publish it. */
    method Rest(owner: Owner, id: nat, side: Side, price: int, leaves: nat)
      requires Valid() && owner.client < index.Length0 && owner.coid < index.Length1 && leaves > 0 && 1 <= id
               && nextId == id + 1
      requires Matching.Inv(Exchange(book.View(), id)) && !Live(book.View(), owner)
      requires NoCollision(book.View(), side, price, book.slots.Length)
      requires var opp := Half(book.View(), Opposite(side)); opp == [] || !Crosses(side, price, opp[0].price)
      requires var o := Order(owner, id, side, price, leaves, NextPriority(Half(book.View(), side), side, price));
               Fits(Inserted(book.View(), o), book.orders.store.Length, book.levels.store.Length)
      modifies this`upds, index, book.Repr()
      ensures Valid()
      ensures var o := Order(owner, id, side, price, leaves, NextPriority(Half(old(book.View()), side), side, price));
              && book.View() == Inserted(old(book.View()), o)
              && upds == old(upds) + [Update.Add(id, ticker, side, price, leaves, o.priority)]
    {
      hide LevelsOk, SlotsOk, SideOk, Covered, LiveOk, BookOf, AnotherFree, Matching.Inv, NoCollision, Live, IndexOk;
      var priority := book.GetNextPriority(price, side);
      var order := Order(owner, id, side, price, leaves, priority);
      NotIndexed(owner);
      RestingKeepsInv(Exchange(book.View(), id), order);
      PlaceOrder(order);
      upds := upds + [Update.Add(id, ticker, side, price, leaves, priority)];
    }

    /** Take a pool block for a new order, link it in and index it. */
    method PlaceOrder(order: Order<Owner>)
      requires this !in book.Repr() && index !in book.Repr() && book.Valid() && IndexOk()
      requires order.owner.client < index.Length0 && order.owner.coid < index.Length1
      requires index[order.owner.client, order.owner.coid] == NULL
      requires NoCollision(book.View(), order.side, order.price, book.slots.Length)
      requires Fits(Inserted(book.View(), order), book.orders.store.Length, book.levels.store.Length)
      modifies index, book.Repr()
      ensures book.Valid() && IndexOk() && book.View() == Inserted(old(book.View()), order)
    {
      hide LevelsOk, SlotsOk, SideOk, Covered, LiveOk, BookOf, AnotherFree, NoCollision, Fits, Insert;
      book.Room(order);
      var o := book.AllocateOrder(order);
      book.AddOrder(o);
      index[order.owner.client, order.owner.coid] := o;
      forall c, k | 0 <= c < index.Length0 && 0 <= k < index.Length1 ensures IndexEntryOk(c, k) {
        assert old(IndexEntryOk(c, k));
      }
      forall x | 0 <= x < book.orders.store.Length && !book.orders.store[x].isFree ensures Indexed(x) {
        assert x != o ==> old(Indexed(x));
      }
    }

    /** A client order id that is not live has no index entry. */
    lemma {:induction false} NotIndexed(owner: Owner)
      requires Valid() && owner.client < index.Length0 && owner.coid < index.Length1 && !Live(book.View(), owner)
      ensures index[owner.client, owner.coid] == NULL
    {
      assert IndexEntryOk(owner.client, owner.coid);
      var o := index[owner.client, owner.coid];
      if o != NULL {
        var side, p := book.OrderInView(o);
      }
    }

    /** A client order id without an index entry is not live. */
    lemma {:induction false} NotLive(owner: Owner)
      requires Valid()
      requires owner.client < index.Length0 ==> owner.coid < index.Length1 && index[owner.client, owner.coid] == NULL
      ensures forall side: Side, p | 0 <= p < |Half(book.View(), side)| :: Half(book.View(), side)[p].owner != owner
    {
      forall side: Side, p | 0 <= p < |Half(book.View(), side)| ensures Half(book.View(), side)[p].owner != owner {
        ViewInPool(book.M(), book.shape, book.bestBid, book.bestAsk, side, p);
        var w := Half(book.View(), side)[p];
        var ob := book.orders.store[..];
        var o :| 0 <= o < |ob| && !ob[o].isFree && ob[o].item.order == w;
        assert Indexed(o);
      }
    }

    /** Cancel a client's order if it is live, and reject the request otherwise. */
    method Cancel(client: nat, coid: nat)
      requires Valid() && (client < index.Length0 ==> coid < index.Length1)
      modifies Repr()
      ensures Valid()
      ensures var out := CancelOwner(old(X()), client, coid, ticker);
              X() == out.exchange && resps == old(resps) + out.resps && upds == old(upds) + out.upds
    {
      hide LevelsOk, SlotsOk, SideOk, Covered, LiveOk, BookOf, AnotherFree, Matching.Inv;
      ghost var x := X();
      var o := if client < index.Length0 then index[client, coid] else NULL;
      if o == NULL {
        NotLive(Owner(client, coid));
        RejectedCancel(x, client, coid, ticker);
        resps := resps + [CancelRejected(client, ticker, coid)];
      } else {
        assert IndexEntryOk(client, coid);
        var order := book.orders.store[o].item.order;
        var response := Canceled(client, ticker, coid, order.id, order.side, order.price, order.qty);
        var update := Update.Cancel(order.id, ticker, order.side, order.price, 0, order.priority);
        ghost var p := RemoveOrder(o);
        AcceptedCancel(x, order.side, p, ticker);
        upds := upds + [update];
        resps := resps + [response];
      }
    }
  }

  lemma {:induction false} NothingHeld()
    ensures Matching.Inv(EMPTY)
  {
  }

  /** What matching leaves behind when the incoming order has a remainder: the slot of its price is its own. */
  lemma {:induction false} AfterMatching(x: Exchange, inc: Incoming, qty: nat, n: nat)
    requires Matching.Inv(x) && n > 0 && PriceSafe(x.book, inc.price, n) && !Live(x.book, inc.owner)
    requires MatchAll(inc, Half(x.book, Opposite(inc.side)), qty).leaves > 0
    ensures var m := MatchAll(inc, Half(x.book, Opposite(inc.side)), qty);
            var b := WithHalf(x.book, Opposite(inc.side), m.opp);
            && Matching.Inv(Exchange(b, x.nextId)) && !Live(b, inc.owner) && NoCollision(b, inc.side, inc.price, n)
            && (m.opp == [] || !Crosses(inc.side, inc.price, m.opp[0].price))
  {
    var opp := Half(x.book, Opposite(inc.side));
    var own := Half(x.book, inc.side);
    var m := MatchAll(inc, opp, qty);
    var k := MatchedBook(x, inc, qty);
    RestNotLive(x.book, Opposite(inc.side), m.opp, k, inc.owner);
    RemainderCrossesNothing(x, inc, qty);
    forall i | 0 <= i < |m.opp| ensures SlotsAgree(m.opp[i], inc.side, inc.price, n) {
      assert m.opp[i] == opp[k + i].(qty := m.opp[i].qty);
    }
    forall i | 0 <= i < |own| ensures SlotsAgree(own[i], inc.side, inc.price, n) {
      assert OrderOk(own[i], inc.side, x.nextId);
    }
  }

  lemma {:induction false} RejectedCancel(x: Exchange, client: nat, coid: nat, ticker: nat)
    requires forall side: Side, p | 0 <= p < |Half(x.book, side)| :: Half(x.book, side)[p].owner != Owner(client, coid)
    ensures CancelOwner(x, client, coid, ticker) == Outcome(x, [CancelRejected(client, ticker, coid)], [])
  {
  }

  lemma {:induction false} AcceptedCancel(x: Exchange, side: Side, p: nat, ticker: nat)
    requires Matching.Inv(x) && p < |Half(x.book, side)|
    ensures var o := Half(x.book, side)[p];
            && o.side == side
            && CancelOwner(x, o.owner.client, o.owner.coid, ticker) == Matching.RemoveAt(x, side, p, ticker)
            && Matching.Inv(x.(book := Removed(x.book, side, p)))
  {
    var s := Half(x.book, side);
    var o := s[p];
    assert OrderOk(o, side, x.nextId);
    assert forall i | 0 <= i < p :: PairOk(s[i], s[p]);
    if side.Sell? {
      assert forall i | 0 <= i < |x.book.bids| :: Apart(x.book.bids[i], x.book.asks[p]);
    }
    RemoveAtKeepsInv(x, side, p, ticker);
  }

  /** One stretch of matching followed by another. */
  function Then(a: Matched, b: Matched): Matched {
    Matched(b.opp, b.leaves, a.resps + b.resps, a.upds + b.upds)
  }

  lemma {:induction false} MatchAllStep(x: Exchange, inc: Incoming, done: Matched)
    requires Matching.Inv(x) && Half(x.book, Opposite(inc.side)) == done.opp && CanMatch(inc, done.opp, done.leaves)
    ensures var next := Then(done, MatchHead(inc, done.opp, done.leaves));
            && Then(done, MatchAll(inc, done.opp, done.leaves)) == Then(next, MatchAll(inc, next.opp, next.leaves))
            && |next.opp| + next.leaves < |done.opp| + done.leaves
  {
  }

  // ---------------------------------------------------------------- facts about the front of a side

  lemma {:induction false} HeadFacts(x: Exchange, side: Side)
    requires Matching.Inv(x) && Half(x.book, side) != []
    ensures Half(x.book, side)[0].side == side && Half(x.book, side)[0].qty > 0
  {
  }

  lemma {:induction false} OnlyHead(x: Exchange, side: Side, p: nat)
    requires Matching.Inv(x) && p < |Half(x.book, side)| && Half(x.book, side)[p] == Half(x.book, side)[0]
    ensures p == 0
  {
  }

  lemma {:induction false} OnlyHeadAfter(x: Exchange, side: Side, qty: nat, p: nat)
    requires Matching.Inv(x) && Half(x.book, side) != []
    requires var t := Half(Requantified(x.book, side, 0, qty), side); p < |t| && t[p] == t[0]
    ensures p == 0
  {
  }

  /** One match keeps the book sound. */
  lemma {:induction false} MatchHeadInv(x: Exchange, inc: Incoming, leaves: nat)
    requires Matching.Inv(x) && CanMatch(inc, Half(x.book, Opposite(inc.side)), leaves)
    ensures var opp := MatchHead(inc, Half(x.book, Opposite(inc.side)), leaves).opp;
            Matching.Inv(Exchange(WithHalf(x.book, Opposite(inc.side), opp), x.nextId))
  {
    var opp := Half(x.book, Opposite(inc.side));
    assert forall i | 0 <= i < |opp| :: OrderOk(opp[i], Opposite(inc.side), x.nextId);
    hide MatchHead, CanMatch, Rest;
    MatchHeadRest(inc, opp, leaves);
    RestInv(x, Opposite(inc.side), MatchHead(inc, opp, leaves).opp);
  }

  lemma {:induction false} RestInv(x: Exchange, side: Side, t: seq<Order<Owner>>)
    requires Matching.Inv(x) && |t| <= |Half(x.book, side)|
             && Matching.Rest(Half(x.book, side), t, |Half(x.book, side)| - |t|)
    ensures Matching.Inv(Exchange(WithHalf(x.book, side, t), x.nextId))
  {
    hide HalfOk, Matching.Rest, Apart;
    RestHalfOk(side, Half(x.book, side), x.nextId, t, |Half(x.book, side)| - |t|);
    RestApart(x, side, t, |Half(x.book, side)| - |t|);
  }
}
