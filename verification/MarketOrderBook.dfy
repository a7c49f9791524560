/** A client's replica of the public book, and its cached best bid and offer. */
module MarketOrderBooks {
  import opened Types
  import opened PriceTime
  import opened Feed
  import opened MemPools
  import opened Rings
  import opened Ladder
  import opened LadderOps
  import opened LinkedBooks
  import opened Accounting

  /** Best price and the total quantity there; the quantity is a 32-bit sum. */
  datatype Quote = Quote(price: int, qty: nat)

  datatype BBO = BBO(bid: Quote, ask: Quote)

  const NO_QUOTE: Quote := Quote(PRICE_INVALID, QTY_INVALID)

  function QtyAt<O>(s: seq<Order<O>>, price: int): nat {
    if s == [] then 0 else (if s[0].price == price then s[0].qty else 0) + QtyAt(s[1..], price)
  }

  /** The quote of a side, computed from the whole side. */
  function QuoteOf<O>(s: seq<Order<O>>): Quote {
    if s == [] then NO_QUOTE else Quote(s[0].price, QtyAt(s, s[0].price) % TWO_32)
  }

  function BBOOf<O>(b: Book<O>): BBO {
    BBO(QuoteOf(b.bids), QuoteOf(b.asks))
  }

  function Sum<O>(s: seq<Order<O>>): nat {
    if s == [] then 0 else Sum(s[..|s| - 1]) + s[|s| - 1].qty
  }

  /** Addition of 32-bit quantities. */
  function Add32(a: nat, b: nat): nat {
    (a + b) % TWO_32
  }

  function Sum32<O>(s: seq<Order<O>>): nat {
    if s == [] then 0 else Add32(Sum32(s[..|s| - 1]), s[|s| - 1].qty)
  }

  lemma {:induction false} Sum32Wraps<O>(s: seq<Order<O>>)
    ensures Sum32(s) == Sum(s) % TWO_32
  {
    if s != [] {
      Sum32Wraps(s[..|s| - 1]);
      var a, b := Sum(s[..|s| - 1]), s[|s| - 1].qty;
      assert (a + b) % TWO_32 == (a % TWO_32 + b) % TWO_32;
    }
  }

  lemma {:induction false} Sum32Empty<O>()
    ensures Sum32<O>([]) == 0
  {
  }

  lemma {:induction false} Sum32Step<O>(s: seq<Order<O>>, i: nat)
    requires i < |s|
    ensures Sum32(s[..i + 1]) == Add32(Sum32(s[..i]), s[i].qty)
  {
    assert s[..i + 1][..i] == s[..i] && s[..i + 1][i] == s[i];
  }

  // ---------------------------------------------------------------- what a quote means

  /** The orders at one price. */
  function AtPrice<O>(s: seq<Order<O>>, price: int): seq<Order<O>> {
    if s == [] then []
    else AtPrice(s[..|s| - 1], price) + if s[|s| - 1].price == price then [s[|s| - 1]] else []
  }

  /** A quote for a side: its best price and all that is there, or the two invalid values when there is nothing. */
  ghost predicate Shows<O>(side: Side, s: seq<Order<O>>, q: Quote) {
    if s == [] then q.price == PRICE_INVALID && q.qty == QTY_INVALID
    else
      && (exists i :: 0 <= i < |s| && s[i].price == q.price)
      && (forall i | 0 <= i < |s| :: !Better(side, s[i].price, q.price))
      && q.qty == Sum(AtPrice(s, q.price)) % TWO_32
  }

  lemma {:induction false} SumMore<O>(s: seq<Order<O>>, o: Order<O>)
    ensures Sum(s + [o]) == Sum(s) + o.qty
  {
    assert (s + [o])[..|s|] == s;
  }

  lemma {:induction false} QtyAtIsSum<O>(s: seq<Order<O>>, price: int)
    ensures QtyAt(s, price) == Sum(AtPrice(s, price))
  {
    if s != [] {
      var t, o := s[..|s| - 1], s[|s| - 1];
      assert s == t + [o];
      QtyAtIsSum(t, price);
      QtyAtConcat(t, [o], price);
      SumMore(AtPrice(t, price), o);
      assert QtyAt([o], price) == if o.price == price then o.qty else 0;
      assert AtPrice(s, price) == if o.price == price then AtPrice(t, price) + [o] else AtPrice(t, price);
      hide Sum, AtPrice;
    }
  }

  lemma {:induction false} QuoteShows<O>(side: Side, s: seq<Order<O>>)
    requires Sorted(side, s)
    ensures Shows(side, s, QuoteOf(s))
  {
    SortedMonotone(side, s);
    if s != [] {
      QtyAtIsSum(s, s[0].price);
      hide Sum, AtPrice, QtyAt;
    }
  }

  ghost predicate PricesValid<O>(b: Book<O>) {
    && (forall i | 0 <= i < |b.bids| :: b.bids[i].price < PRICE_INVALID)
    && (forall i | 0 <= i < |b.asks| :: b.asks[i].price < PRICE_INVALID)
  }

  /** A side shows an invalid price exactly when it is empty. */
  lemma {:induction false} InvalidIffEmpty(b: PublicBook)
    requires PricesValid(b)
    ensures BBOOf(b).bid.price == PRICE_INVALID <==> b.bids == []
    ensures BBOOf(b).ask.price == PRICE_INVALID <==> b.asks == []
  {
  }

  // ---------------------------------------------------------------- when a quote stays what it was

  lemma {:induction false} QtyAtConcat<O>(a: seq<Order<O>>, b: seq<Order<O>>, price: int)
    ensures QtyAt(a + b, price) == QtyAt(a, price) + QtyAt(b, price)
  {
    if a == [] {
      assert a + b == b;
    } else {
      assert (a + b)[1..] == a[1..] + b;
      QtyAtConcat(a[1..], b, price);
    }
  }

  lemma {:induction false} QtyAtNone<O>(s: seq<Order<O>>, price: int)
    requires forall i | 0 <= i < |s| :: s[i].price != price
    ensures QtyAt(s, price) == 0
  {
    if s != [] {
      QtyAtNone(s[1..], price);
    }
  }

  lemma {:induction false} QtyAtAll<O>(s: seq<Order<O>>, price: int)
    requires forall i | 0 <= i < |s| :: s[i].price == price
    ensures QtyAt(s, price) == Sum(s)
  {
    if s != [] {
      var t := s[..|s| - 1];
      QtyAtAll(t, price);
      QtyAtConcat(t, [s[|s| - 1]], price);
      assert s == t + [s[|s| - 1]];
    }
  }

  /** An insertion behind the best price leaves the quote alone. */
  lemma {:induction false} QuoteInsert<O>(s: seq<Order<O>>, o: Order<O>)
    requires s != [] && Better(o.side, s[0].price, o.price)
    ensures QuoteOf(Insert(s, o)) == QuoteOf(s)
  {
    var k := Rank(s, o.side, o.price);
    var p := s[0].price;
    QtyAtConcat(s[..k] + [o], s[k..], p);
    QtyAtConcat(s[..k], [o], p);
    QtyAtConcat(s[..k], s[k..], p);
    assert s == s[..k] + s[k..];
  }

  /** So does a removal behind the best price. */
  lemma {:induction false} QuoteWithout<O>(s: seq<Order<O>>, k: nat)
    requires k < |s| && s[k].price != s[0].price
    ensures QuoteOf(Without(s, k)) == QuoteOf(s)
  {
    var p := s[0].price;
    QtyAtConcat(s[..k], s[k + 1..], p);
    QtyAtConcat(s[..k] + [s[k]], s[k + 1..], p);
    QtyAtConcat(s[..k], [s[k]], p);
    assert s == s[..k] + [s[k]] + s[k + 1..];
  }

  /** And a change of quantity behind the best price. */
  lemma {:induction false} QuoteQty<O>(s: seq<Order<O>>, k: nat, qty: nat)
    requires k < |s| && s[k].price != s[0].price
    ensures QuoteOf(s[k := s[k].(qty := qty)]) == QuoteOf(s)
  {
    var p := s[0].price;
    var t := s[k := s[k].(qty := qty)];
    QtyAtConcat(s[..k] + [s[k]], s[k + 1..], p);
    QtyAtConcat(s[..k], [s[k]], p);
    QtyAtConcat(t[..k] + [t[k]], t[k + 1..], p);
    QtyAtConcat(t[..k], [t[k]], p);
    assert s == s[..k] + [s[k]] + s[k + 1..] && t == t[..k] + [t[k]] + t[k + 1..];
    assert t[..k] == s[..k] && t[k + 1..] == s[k + 1..];
  }

  /** The test the replica makes before an update: does it touch the best price of its side? */
  predicate Touches<O>(b: Book<O>, side: Side, u: Update) {
    && (u.Add? || u.Modify? || u.Cancel?) && u.side == side
    && (var s := Half(b, side); s == [] || !Better(side, s[0].price, u.price))
  }

  /** An update that does not pass the test leaves the quote of that side exactly as it was. */
  lemma {:induction false} QuoteKept(b: PublicBook, side: Side, u: Update)
    requires BookOk(b) && WellFormed(b, u) && !Touches(b, side, u)
    ensures QuoteOf(Half(Apply(b, u), side)) == QuoteOf(Half(b, side))
  {
    var s := Half(b, side);
    if u.Add? && u.side == side {
      QuoteInsert(s, Added(u));
    } else if u.Modify? && u.side == side {
      QuoteQty(s, Find(s, u.id), u.qty);
    } else if u.Cancel? && u.side == side {
      QuoteWithout(s, Find(s, u.id));
    }
  }

  /** The quantity of the best level, summed along its ring, is the quantity at the best price. */
  lemma {:induction false} BestLevelQty<O>(m: Mem<O>, fifo: map<int, seq<int>>, side: Side, ring: seq<int>, best: int)
    requires LevelsOk(m, fifo) && SideOk(m, fifo, side, ring, best) && ring != []
    ensures Flattenable(m.ob, fifo, ring) && best in fifo && InRange(m.ob, fifo[best])
    ensures var s := Flat(m.ob, fifo, ring);
            s != [] && QtyAt(s, s[0].price) == Sum(Queue(m.ob, fifo[best])) && s[0].price == m.lb[best].item.price
  {
    SideInRange(m, fifo, side, ring, best);
    FlatAround(m.ob, fifo, ring, 0);
    assert ring[..0] == [];
    assert RungOk(m, fifo, side, ring[0]);
    assert LevelOk(m, best, fifo[best]);
    QueuePrices(m, best, fifo[best]);
    BehindLevel(m, fifo, side, ring, best, 0);
    var price := m.lb[best].item.price;
    var q := Queue(m.ob, fifo[best]);
    var c := Flat(m.ob, fifo, ring[1..]);
    assert Flat(m.ob, fifo, ring) == q + c;
    QtyAtAll(q, price);
    QtyAtNone(c, price);
    QtyAtConcat(q, c, price);
  }

  class MarketOrderBook {
    const book: LinkedBook<()>
    /** `oid_to_order_`: pool index of the order with this market order id, or null. */
    const index: array<int>
    var bbo: BBO

    ghost function Repr(): set<object> {
      {this, index} + book.Repr()
    }

    ghost predicate IndexEntryOk(id: nat)
      requires id < index.Length
      reads index, book.orders.store
    {
      index[id] == NULL ||
      (0 <= index[id] < book.orders.store.Length && !book.orders.store[index[id]].isFree
       && book.orders.store[index[id]].item.order.id == id)
    }

    ghost predicate Indexed(o: nat)
      requires o < book.orders.store.Length
      reads index, book.orders.store
    {
      book.orders.store[o].item.order.id < index.Length && index[book.orders.store[o].item.order.id] == o
    }

    ghost predicate IndexOk()
      reads index, book.orders.store
    {
      && (forall id | 0 <= id < index.Length :: IndexEntryOk(id))
      && (forall o | 0 <= o < book.orders.store.Length && !book.orders.store[o].isFree :: Indexed(o))
    }

    /** Linked structure and index describe the same book. */
    ghost predicate Core()
      reads Repr()
    {
      && this !in book.Repr() && index !in book.Repr()
      && book.Valid() && BookOk(book.View()) && IndexOk()
    }

    /** So do the cached quotes. */
    ghost predicate Valid()
      reads Repr()
    {
      Core() && bbo == BBOOf(book.View())
    }

    constructor (orders: nat, levels: nat, orderIds: nat)
      requires orders > 0 && levels > 0
      ensures Valid() && book.View() == EMPTY_BOOK && index.Length == orderIds && book.slots.Length == levels
      ensures book.orders.store.Length == orders && book.levels.store.Length == levels
      ensures fresh(index) && fresh(book.Repr())
    {
      index := new int[orderIds](_ => NULL);
      book := new LinkedBook(orders, levels, levels, Order((), 0, Buy, 0, 0, 0));
      bbo := BBO(NO_QUOTE, NO_QUOTE);
      new;
      hide Ladder.Inv, BookOf, LevelsOk, Ladder.SideOk, BookOk, QuoteOf, Inserted;
      assert this !in book.Repr() && index !in book.Repr();
      EmptyBookOk();
      assert bbo == BBOOf(book.View());
      assert IndexOk();
      hide IndexOk, BBOOf;
    }

    /** What the cached quotes of a valid replica show. */
    lemma {:induction false} QuotesShow()
      requires Valid()
      ensures Shows(Buy, book.View().bids, bbo.bid) && Shows(Sell, book.View().asks, bbo.ask)
      ensures PricesValid(book.View()) ==> (bbo.bid.price == PRICE_INVALID <==> book.View().bids == [])
      ensures PricesValid(book.View()) ==> (bbo.ask.price == PRICE_INVALID <==> book.View().asks == [])
    {
      var b := book.View();
      assert Sorted(Buy, b.bids) && Sorted(Sell, b.asks);
      hide Ladder.Inv, BookOf, BookOk, IndexOk, Shows, QuoteOf;
      QuoteShows(Buy, b.bids);
      QuoteShows(Sell, b.asks);
      if PricesValid(b) {
        InvalidIffEmpty(b);
      }
    }

    /** Best price of a side and the sum of the quantities along its ring, in 32-bit arithmetic. */
    method SideQuote(side: Side) returns (quote: Quote)
      requires book.Valid()
      ensures quote == QuoteOf(Half(book.View(), side))
    {
      var best := if side.Buy? then book.bestBid else book.bestAsk;
      ghost var ring := RingOf(book.shape, side);
      RingNotNull(book.levels.store[..], ring, best);
      if best == NULL {
        quote := NO_QUOTE;
      } else {
        BestLevelQty(book.M(), book.shape.fifo, side, ring, best);
        ghost var q := book.shape.fifo[best];
        QueueRing(book.M(), book.shape.fifo, best);
        hide LevelsOk, Ladder.SideOk, Covered, LiveOk, SlotsOk;
        var qty := RingQty(best, q);
        quote := Quote(book.levels.store[best].item.price, qty);
      }
    }

    method RingQty(l: nat, ghost q: seq<int>) returns (qty: nat)
      requires l < book.levels.store.Length && Ring(OrderLinks(book.orders.store[..]), q)
      requires InRange(book.orders.store[..], q) && book.levels.store[l].item.first == q[0]
      ensures qty == Sum(Queue(book.orders.store[..], q)) % TWO_32
    {
      hide Sum, Sum32, Add32;
      ghost var ob := book.orders.store[..];
      ghost var s := Queue(ob, q);
      forall i | 0 <= i < |q| ensures ob[q[i]].item.link.next == Succ(q, i) {
        assert Linked(OrderLinks(ob), q, i);
      }
      var first := book.levels.store[l].item.first;
      qty := Add32(0, book.orders.store[first].item.order.qty);
      var order := book.orders.store[first].item.link.next;
      ghost var i: nat := 1;
      Sum32Step(s, 0);
      Sum32Empty<()>();
      assert s[..0] == [];
      while order != first
        invariant 1 <= i <= |q| && order == (if i == |q| then q[0] else q[i])
        invariant qty == Sum32(s[..i])
        decreases |q| - i
      {
        Sum32Step(s, i);
        qty := Add32(qty, book.orders.store[order].item.order.qty);
        order := book.orders.store[order].item.link.next;
        i := i + 1;
      }
      assert s[..|q|] == s;
      Sum32Wraps(s);
    }

    method UpdateBBO(updateBid: bool, updateAsk: bool)
      requires this !in book.Repr() && book.Valid()
      modifies this`bbo
      ensures bbo.bid == if updateBid then QuoteOf(book.View().bids) else old(bbo).bid
      ensures bbo.ask == if updateAsk then QuoteOf(book.View().asks) else old(bbo).ask
    {
      hide Ladder.Inv, BookOf;
      if updateBid {
        var quote := SideQuote(Buy);
        bbo := bbo.(bid := quote);
      }
      if updateAsk {
        var quote := SideQuote(Sell);
        bbo := bbo.(ask := quote);
      }
    }

    /** The order that a MODIFY or CANCEL names is the one the index holds for its id. */
    lemma {:induction false} NamedOrder(u: Update) returns (k: nat)
      requires Core() && (u.Modify? || u.Cancel?) && WellFormed(book.View(), u)
      ensures u.id < index.Length && 0 <= index[u.id] < book.orders.store.Length
              && !book.orders.store[index[u.id]].isFree
      ensures k == Find(Half(book.View(), u.side), u.id) < |Half(book.View(), u.side)|
      ensures Half(book.View(), u.side)[k] == book.orders.store[index[u.id]].item.order
      ensures Half(book.View(), u.side)[k].side == u.side
      ensures forall p | 0 <= p < |Half(book.View(), u.side)| :: Half(book.View(), u.side)[p].id == u.id ==> p == k
    {
      hide LevelsOk, Ladder.SideOk, Covered, LiveOk, SlotsOk, BookOf, BookOk;
      var s := Half(book.View(), u.side);
      k := Find(s, u.id);
      OneOfId(book.View(), u.side, k);
      ViewInPool(book.M(), book.shape, book.bestBid, book.bestAsk, u.side, k);
      var ob := book.orders.store[..];
      var o :| 0 <= o < |ob| && !ob[o].isFree && ob[o].item.order == s[k];
      assert Indexed(o);
    }

    method OnModify(u: Update)
      requires Core() && u.Modify? && WellFormed(book.View(), u)
      modifies book.Repr()
      ensures Core() && book.View() == Apply(old(book.View()), u)
    {
      ghost var k := NamedOrder(u);
      ApplyKeepsOk(book.View(), u);
      hide LevelsOk, Ladder.SideOk, Covered, LiveOk, SlotsOk, BookOf, BookOk, WellFormed, IndexOk;
      ghost var p := SetQty(index[u.id], u.qty);
      assert p == k;
    }

    method SetQty(o: nat, qty: nat) returns (ghost pos: nat)
      requires this !in book.Repr() && index !in book.Repr() && book.Valid() && IndexOk()
      requires o < book.orders.store.Length && !book.orders.store[o].isFree
      modifies book.Repr()
      ensures book.Valid() && IndexOk()
      ensures var w := old(book.orders.store[o].item.order);
              && pos < |Half(old(book.View()), w.side)| && Half(old(book.View()), w.side)[pos] == w
              && book.View() == Requantified(old(book.View()), w.side, pos, qty)
    {
      hide LevelsOk, Ladder.SideOk, Covered, LiveOk, SlotsOk, BookOf, AnotherFree;
      pos := book.SetOrderQty(o, qty);
      forall id | 0 <= id < index.Length ensures IndexEntryOk(id) {
        assert old(IndexEntryOk(id));
      }
      forall x | 0 <= x < book.orders.store.Length && !book.orders.store[x].isFree ensures Indexed(x) {
        assert old(Indexed(x));
      }
    }

    /** Remove an order from the book, the index and the pool. */
    method RemoveOrder(o: nat) returns (ghost pos: nat)
      requires this !in book.Repr() && index !in book.Repr() && book.Valid() && IndexOk()
      requires o < book.orders.store.Length && !book.orders.store[o].isFree
      modifies index, book.Repr()
      ensures book.Valid() && IndexOk()
      ensures var w := old(book.orders.store[o].item.order);
              && pos < |Half(old(book.View()), w.side)| && Half(old(book.View()), w.side)[pos] == w
              && book.View() == Removed(old(book.View()), w.side, pos)
    {
      hide Ladder.Inv, BookOf, AnotherFree;
      var id := book.orders.store[o].item.order.id;
      assert Indexed(o);
      pos := book.RemoveOrder(o);
      index[id] := NULL;
      forall i | 0 <= i < index.Length ensures IndexEntryOk(i) {
        assert old(IndexEntryOk(i));
      }
      forall x | 0 <= x < book.orders.store.Length && !book.orders.store[x].isFree ensures Indexed(x) {
        assert x != o && old(Indexed(x));
      }
    }

    method OnCancel(u: Update)
      requires Core() && u.Cancel? && WellFormed(book.View(), u)
      modifies index, book.Repr()
      ensures Core() && book.View() == Apply(old(book.View()), u)
    {
      ghost var k := NamedOrder(u);
      ApplyKeepsOk(book.View(), u);
      hide LevelsOk, Ladder.SideOk, Covered, LiveOk, SlotsOk, BookOf, BookOk, WellFormed, IndexOk;
      ghost var p := RemoveOrder(index[u.id]);
      assert p == k;
    }

    /** Take a pool block for a new order and link it in. */
    method PlaceOrder(order: Order<()>)
      requires this !in book.Repr() && index !in book.Repr() && book.Valid() && IndexOk()
      requires order.id < index.Length && index[order.id] == NULL
      requires NoCollision(book.View(), order.side, order.price, book.slots.Length)
      requires Fits(Inserted(book.View(), order), book.orders.store.Length, book.levels.store.Length)
      modifies index, book.Repr()
      ensures book.Valid() && IndexOk() && book.View() == Inserted(old(book.View()), order)
    {
      hide LevelsOk, Ladder.SideOk, Covered, LiveOk, SlotsOk, BookOf, AnotherFree, NoCollision;
      book.Room(order);
      hide Fits;
      var o := book.AllocateOrder(order);
      book.AddOrder(o);
      index[order.id] := o;
      forall id | 0 <= id < index.Length ensures IndexEntryOk(id) {
        assert old(IndexEntryOk(id));
      }
      forall x | 0 <= x < book.orders.store.Length && !book.orders.store[x].isFree ensures Indexed(x) {
        assert x != o ==> old(Indexed(x));
      }
    }

    method OnAdd(u: Update)
      requires Core() && u.Add? && WellFormed(book.View(), u) && u.id < index.Length
      requires PriceSafe(book.View(), u.price, book.slots.Length)
      requires Fits(Apply(book.View(), u), book.orders.store.Length, book.levels.store.Length)
      modifies index, book.Repr()
      ensures Core() && book.View() == Apply(old(book.View()), u)
    {
      hide LevelsOk, Ladder.SideOk, Covered, LiveOk, SlotsOk, BookOf, BookOk, WellFormed, AnotherFree, NoCollision,
          PriceSafe, IndexOk;
      AddIsSafe(book.View(), u, book.slots.Length);
      ApplyKeepsOk(book.View(), u);
      NotIndexed(u);
      PlaceOrder(Added(u));
    }

    lemma {:induction false} NotIndexed(u: Update)
      requires Core() && u.Add? && WellFormed(book.View(), u) && u.id < index.Length
      ensures index[u.id] == NULL
    {
      assert IndexEntryOk(u.id);
      if index[u.id] != NULL {
        var side, p := book.OrderInView(index[u.id]);
      }
    }

    /**
      Apply one update of the exchange's feed. Afterwards the linked book is the book the update
      leads to, and the cached quotes, refreshed only if the update passed the test made before it,
      equal the quotes recomputed from that book.
    */
    method OnMarketUpdate(u: Update)
      requires Valid() && WellFormed(book.View(), u)
      requires u.Add? ==> u.id < index.Length && PriceSafe(book.View(), u.price, book.slots.Length)
                          && Fits(Apply(book.View(), u), book.orders.store.Length, book.levels.store.Length)
      modifies Repr()
      ensures Valid() && book.View() == Apply(old(book.View()), u)
    {
      hide LevelsOk, Ladder.SideOk, Covered, LiveOk, SlotsOk, BookOf, BookOk, WellFormed, AnotherFree, PriceSafe,
          IndexOk, QuoteOf, Touches;
      ghost var b := book.View();
      QuotesKept(b, u);
      var bidUpdated := TouchesBest(Buy, u);
      var askUpdated := TouchesBest(Sell, u);
      if u.Trade? {
        return;
      }
      hide Apply, Fits;
      Change(u);
      UpdateBBO(bidUpdated, askUpdated);
    }

    /** What the update does to book and index. */
    method Change(u: Update)
      requires Core() && WellFormed(book.View(), u) && (u.Add? || u.Modify? || u.Cancel?)
      requires u.Add? ==> u.id < index.Length && PriceSafe(book.View(), u.price, book.slots.Length)
                          && Fits(Apply(book.View(), u), book.orders.store.Length, book.levels.store.Length)
      modifies index, book.Repr()
      ensures Core() && book.View() == Apply(old(book.View()), u)
    {
      hide Core, WellFormed, PriceSafe, Apply, Fits;
      if u.Add? {
        OnAdd(u);
      } else if u.Modify? {
        OnModify(u);
      } else {
        OnCancel(u);
      }
    }

    /** Whether the update is on this side and at or inside its best price. */
    method TouchesBest(side: Side, u: Update) returns (touches: bool)
      requires book.Valid() && WellFormed(book.View(), u)
      ensures !u.Trade? ==> touches == Touches(book.View(), side, u)
    {
      hide LevelsOk, Ladder.SideOk, Covered, LiveOk, SlotsOk, BookOf;
      var best := book.BestPrice(side);
      touches := u.side == side && (best.None? || (if side.Buy? then u.price >= best.value else u.price <= best.value));
    }

    /** The deallocation loop of CLEAR over the price levels of one side: all but the best, then the best. */
    method FreeLevels(best: int, ghost ring: seq<int>)
      requires book.levels.Valid() && ring != [] && best == ring[0] && Ring(LevelLinks(book.levels.store[..]), ring)
      requires forall i | 0 <= i < |ring| && 0 <= ring[i] < book.levels.store.Length ::
                 !book.levels.store[ring[i]].isFree
      modifies book.levels.store
      ensures book.levels.Valid() && book.levels.store[..] == Freed(old(book.levels.store[..]), ring[1..] + [best])
    {
      ghost var lb := book.levels.store[..];
      RingWalk(lb, ring);
      hide Ring, Freed, Walkable;
      var l := book.levels.store[best].item.link.next;
      ghost var i := 1;
      while l != best
        invariant 1 <= i <= |ring| && l == (if i == |ring| then ring[0] else ring[i]) && book.levels.Valid()
        invariant book.levels.store[..] == Freed(lb, ring[1..i])
        decreases |ring| - i
      {
        FreedNext(lb, ring, i);
        book.levels.Deallocate(l);
        l := book.levels.store[l].item.link.next;
        i := i + 1;
      }
      assert ring[1..i] == ring[1..];
      FreedBest(lb, ring);
      book.levels.Deallocate(best);
    }

    method FreeOrders()
      requires book.orders.Valid() && IndexOk() && index as object != book.orders.store as object
      modifies index, book.orders.store
      ensures book.orders.Valid() && forall id | 0 <= id < index.Length :: index[id] == NULL
      ensures forall x | 0 <= x < book.orders.store.Length :: book.orders.store[x].isFree
    {
      ghost var ob := book.orders.store[..];
      forall i | 0 <= i < index.Length && index[i] != NULL
        ensures 0 <= index[i] < |ob| && !ob[index[i]].isFree && ob[index[i]].item.order.id == i
      {
        assert IndexEntryOk(i);
      }
      var id := 0;
      while id < index.Length
        invariant id <= index.Length && book.orders.Valid()
        invariant forall i | 0 <= i < index.Length :: index[i] == old(index[i])
        invariant forall x | 0 <= x < |ob| :: book.orders.store[x].item == ob[x].item
        invariant forall i | id <= i < index.Length && index[i] != NULL ::
                    0 <= index[i] < |ob| && !book.orders.store[index[i]].isFree && ob[index[i]].item.order.id == i
        invariant forall x | 0 <= x < |ob| && ob[x].item.order.id < id :: book.orders.store[x].isFree
        invariant forall x | 0 <= x < |ob| && ob[x].isFree :: book.orders.store[x].isFree
      {
        forall x | 0 <= x < |ob| && ob[x].item.order.id == id && !ob[x].isFree ensures old(index[id]) == x {
          assert old(Indexed(x));
        }
        if index[id] != NULL {
          book.orders.Deallocate(index[id]);
        }
        id := id + 1;
      }
      forall x | 0 <= x < |ob| ensures book.orders.store[x].isFree {
        assert !ob[x].isFree ==> old(Indexed(x));
      }
      forall i | 0 <= i < index.Length {
        index[i] := NULL;
      }
    }

    /** What each update of a stream demands of the tables and pools, wherever the stream has led by then. */
    ghost predicate Bounded(b: PublicBook, us: seq<Update>)
      requires book.slots.Length > 0
    {
      forall k | 0 <= k < |us| && us[k].Add? ::
        && us[k].id < index.Length
        && PriceSafe(ApplyAll(b, us[..k]), us[k].price, book.slots.Length)
        && Fits(ApplyAll(b, us[..k + 1]), book.orders.store.Length, book.levels.store.Length)
    }

    /** A whole stream: the replica ends where the stream leads, with quotes to match. */
    method Replay(us: seq<Update>)
      requires Valid() && UsableAll(book.View(), us) && Bounded(book.View(), us)
      modifies Repr()
      ensures Valid() && book.View() == ApplyAll(old(book.View()), us)
    {
      ghost var b := book.View();
      hide Core, Usable, Fits, PriceSafe, Apply, BBOOf;
      var i := 0;
      assert us[..0] == [];
      while i < |us|
        invariant 0 <= i <= |us| && Valid() && book.View() == ApplyAll(b, us[..i])
      {
        assert us[..i + 1][..i] == us[..i] && us[..i + 1][i] == us[i];
        assert Usable(ApplyAll(b, us[..i]), us[i]);
        Take(us[i]);
        i := i + 1;
      }
      assert us[..i] == us;
    }

    /** One update of any kind. */
    method Take(u: Update)
      requires Valid() && Usable(book.View(), u)
      requires u.Add? ==> u.id < index.Length && PriceSafe(book.View(), u.price, book.slots.Length)
                          && Fits(Apply(book.View(), u), book.orders.store.Length, book.levels.store.Length)
      modifies Repr()
      ensures Valid() && book.View() == Apply(old(book.View()), u)
    {
      assert book.Viewable();
      hide Core, WellFormed, Fits, PriceSafe;
      if u.Clear? {
        ClearOnlyEmpty(book.View(), u);
        Clear();
      } else {
        OnMarketUpdate(u);
      }
    }

    /** Neither pool has a block in use, and nothing points at an order any more. */
    ghost predicate Emptied()
      reads this, index, book, book.orders.store, book.levels.store
    {
      && book.bestBid == NULL && book.bestAsk == NULL
      && (forall o | 0 <= o < book.orders.store.Length :: book.orders.store[o].isFree)
      && (forall l | 0 <= l < book.levels.store.Length :: book.levels.store[l].isFree)
      && (forall id | 0 <= id < index.Length :: index[id] == NULL)
    }

    /** No arrangement of rings makes a sound book of the memory. */
    ghost predicate Unusable()
      reads this, book, book.orders.store, book.levels.store, book.slots
    {
      forall sh :: !Ladder.Inv(book.M(), sh, book.bestBid, book.bestAsk, NULL, NULL)
    }

    /** The price slot still names the level block of this price, which is free again. */
    ghost predicate Stale(price: int)
      requires book.slots.Length > 0
      reads book.levels.store, book.slots
    {
      var l := book.slots[Slot(price, book.slots.Length)];
      0 <= l < book.levels.store.Length && book.levels.store[l].isFree && book.levels.store[l].item.price == price
    }

    /**
      CLEAR frees every order and level, empties the index and drops the best prices, but resets neither the
      price slots nor the quotes. So it leaves a usable book exactly when the book was empty: otherwise the slot of
      every price that had orders keeps naming a freed level, which the next ADD at that price would link into.
    */
    method Clear()
      requires Valid()
      modifies Repr()
      ensures Emptied() && bbo == old(bbo) && book.slots[..] == old(book.slots[..])
      ensures old(book.View()) == EMPTY_BOOK ==> Valid() && book.View() == EMPTY_BOOK
      ensures old(book.View()) != EMPTY_BOOK ==> Unusable()
      ensures forall side: Side, p | 0 <= p < |Half(old(book.View()), side)| ::
                Stale(Half(old(book.View()), side)[p].price)
    {
      hide LevelsOk, SlotsOk, BookOf, LiveOk, Covered, Ladder.SideOk, IndexOk, BookOk;
      ghost var m, sh, bb, ba := book.M(), book.shape, book.bestBid, book.bestAsk;
      EmptyIff(m, sh, bb, ba);
      LevelsListed(m, sh, bb, ba);
      FreeOrders();
      FreeBothSides(sh);
      hide Clearable;
      forall l | 0 <= l < book.levels.store.Length ensures book.levels.store[l].isFree {
        assert l in Used(m.lb) ==> l in Members(BothRings(sh));
      }
      ForgetLevels();
      forall side: Side, p | 0 <= p < |Half(old(book.View()), side)|
        ensures Stale(Half(old(book.View()), side)[p].price)
      {
        SlotNames(m, sh, bb, ba, side, p);
      }
    }

    method FreeBothSides(ghost sh: Shape)
      requires book.levels.Valid() && Clearable(book.levels.store[..], sh, book.bestBid, book.bestAsk)
      modifies book.levels.store
      ensures book.levels.Valid()
      ensures forall l | 0 <= l < book.levels.store.Length ::
                && book.levels.store[l].item == old(book.levels.store[l].item)
                && book.levels.store[l].isFree == (l in BothRings(sh) || old(book.levels.store[l].isFree))
    {
      ghost var lb := book.levels.store[..];
      if book.bestBid != NULL {
        FreeLevels(book.bestBid, sh.bids);
        FreedAll(lb, sh.bids);
      }
      ghost var half := book.levels.store[..];
      assert forall l | 0 <= l < |lb| :: half[l].item == lb[l].item && half[l].isFree == (l in sh.bids || lb[l].isFree);
      if book.bestAsk != NULL {
        assert LevelLinks(half) == LevelLinks(lb);
        FreeLevels(book.bestAsk, sh.asks);
        FreedAll(half, sh.asks);
      }
    }

    /** The last step of CLEAR: no best prices, but whatever the price slots still hold. */
    method ForgetLevels()
      requires this !in book.Repr() && index !in book.Repr() && book.Apart()
      requires book.orders.Valid() && book.levels.Valid() && book.slots.Length > 0
      requires forall o | 0 <= o < book.orders.store.Length :: book.orders.store[o].isFree
      requires forall l | 0 <= l < book.levels.store.Length :: book.levels.store[l].isFree
      requires forall id | 0 <= id < index.Length :: index[id] == NULL
      modifies book
      ensures book.bestBid == NULL && book.bestAsk == NULL
      ensures (forall k | 0 <= k < book.slots.Length :: book.slots[k] == NULL) ==> Core() && book.View() == EMPTY_BOOK
      ensures (exists k | 0 <= k < book.slots.Length :: book.slots[k] != NULL) ==> Unusable()
    {
      hide LevelsOk, SlotsOk, BookOf, LiveOk, Covered, Ladder.SideOk;
      book.bestBid, book.bestAsk := NULL, NULL;
      book.shape := Shape([], [], map[]);
      ghost var m := book.M();
      forall sh | Ladder.Inv(m, sh, NULL, NULL, NULL, NULL)
        ensures forall k | 0 <= k < |m.slots| :: m.slots[k] == NULL
      {
        NullBests(m, sh);
      }
      if forall k | 0 <= k < |m.slots| :: m.slots[k] == NULL {
        EmptyInv(m);
      }
    }
  }

  /**
    What that means on a concrete book: one bid is added and the book is cleared. The slot of its price names a
    freed level while there is no best bid, so an ADD at that price would find a level to join.
  */
  method ClearedWithOneBid() returns (b: MarketOrderBook)
    ensures fresh(b) && b.book.slots.Length == 4 && b.Emptied() && b.Unusable() && b.Stale(100)
    ensures b.bbo.bid == Quote(100, 10)
  {
    b := new MarketOrderBook(4, 4, 4);
    hide Ladder.Inv, BookOf, BookOk, QuoteOf, Half;
    FirstBid(b);
    TheBid(b.book.View());
    b.Clear();
  }

  lemma {:induction false} TheBid(b: PublicBook)
    requires b == Book([Order((), 1, Buy, 100, 10, 1)], [])
    ensures b != EMPTY_BOOK && |Half(b, Buy)| == 1 && Half(b, Buy)[0].price == 100
  {
  }

  method FirstBid(b: MarketOrderBook)
    requires b.Valid() && b.book.View() == EMPTY_BOOK && b.index.Length == 4
    requires b.book.orders.store.Length == b.book.levels.store.Length == b.book.slots.Length == 4
    modifies b.Repr()
    ensures b.Valid() && b.book.View() == Book([Order((), 1, Buy, 100, 10, 1)], []) && b.bbo.bid == Quote(100, 10)
  {
    var u := Add(1, 0, Buy, 100, 10, 1);
    OneBid(u, Order((), 1, Buy, 100, 10, 1));
    hide Ladder.Inv, BookOf, BookOk, WellFormed, Apply, Fits, PriceSafe, QuoteOf;
    b.OnMarketUpdate(u);
  }

  lemma {:induction false} OneBid(u: Update, o: Order<()>)
    requires u == Add(1, 0, Buy, 100, 10, 1) && o == Order((), 1, Buy, 100, 10, 1)
    ensures WellFormed(EMPTY_BOOK, u) && Apply(EMPTY_BOOK, u) == Book([o], []) && Fits(Book([o], []), 4, 4)
    ensures PriceSafe(EMPTY_BOOK, 100, 4) && QuoteOf([o]) == Quote(100, 10)
  {
  }

  lemma {:induction false} ClearOnlyEmpty(b: PublicBook, u: Update)
    requires Usable(b, u) && u.Clear?
    ensures b == EMPTY_BOOK && Apply(b, u) == EMPTY_BOOK
  {
  }

  /** A pool after these blocks have been given back. */
  ghost function Freed<T>(s: seq<Block<T>>, xs: seq<int>): (r: seq<Block<T>>)
    ensures |r| == |s|
  {
    if xs == [] then s
    else
      var t, x := Freed(s, xs[..|xs| - 1]), xs[|xs| - 1];
      if 0 <= x < |s| then t[x := Block(t[x].item, true)] else t
  }

  lemma {:induction false} FreedAt<T>(s: seq<Block<T>>, xs: seq<int>, y: int)
    requires 0 <= y < |s|
    ensures Freed(s, xs)[y].item == s[y].item && Freed(s, xs)[y].isFree == (y in xs || s[y].isFree)
  {
    if xs != [] {
      FreedAt(s, xs[..|xs| - 1], y);
      assert xs == xs[..|xs| - 1] + [xs[|xs| - 1]];
    }
  }

  /** Following `next` from any level leads once around a ring of levels in use. */
  ghost predicate Walkable(lb: seq<Block<LevelNode>>, ring: seq<int>) {
    && ring != [] && Injective(ring)
    && forall i | 0 <= i < |ring| ::
         0 <= ring[i] < |lb| && !lb[ring[i]].isFree && lb[ring[i]].item.link.next == Succ(ring, i)
  }

  lemma {:induction false} RingWalk(lb: seq<Block<LevelNode>>, ring: seq<int>)
    requires Ring(LevelLinks(lb), ring)
    requires forall i | 0 <= i < |ring| && 0 <= ring[i] < |lb| :: !lb[ring[i]].isFree
    ensures Walkable(lb, ring) && 0 <= ring[0] < |lb| && lb[ring[0]].item.link.next == Succ(ring, 0)
  {
    forall i | 0 <= i < |ring| ensures 0 <= ring[i] < |lb| && lb[ring[i]].item.link.next == Succ(ring, i) {
      assert Linked(LevelLinks(lb), ring, i);
    }
  }

  lemma {:induction false} FreedNext(lb: seq<Block<LevelNode>>, ring: seq<int>, i: nat)
    requires Walkable(lb, ring) && 1 <= i < |ring|
    ensures var s, x := Freed(lb, ring[1..i]), ring[i];
            && 0 <= x < |lb| && !s[x].isFree && s[x].item.link.next == Succ(ring, i) && x != ring[0]
            && Freed(lb, ring[1..i + 1]) == s[x := Block(s[x].item, true)]
  {
    FreedAt(lb, ring[1..i], ring[i]);
    assert ring[1..i + 1][..i - 1] == ring[1..i] && ring[1..i + 1][i - 1] == ring[i];
  }

  lemma {:induction false} FreedBest(lb: seq<Block<LevelNode>>, ring: seq<int>)
    requires Walkable(lb, ring)
    ensures var s, x := Freed(lb, ring[1..]), ring[0];
            0 <= x < |lb| && !s[x].isFree && Freed(lb, ring[1..] + [x]) == s[x := Block(s[x].item, true)]
  {
    FreedAt(lb, ring[1..], ring[0]);
    assert (ring[1..] + [ring[0]])[..|ring| - 1] == ring[1..];
  }

  lemma {:induction false} FreedAll<T>(s: seq<Block<T>>, ring: seq<int>)
    requires ring != []
    ensures var r := Freed(s, ring[1..] + [ring[0]]);
            forall y | 0 <= y < |s| :: r[y].item == s[y].item && r[y].isFree == (y in ring || s[y].isFree)
  {
    var xs := ring[1..] + [ring[0]];
    forall y | 0 <= y < |s|
      ensures Freed(s, xs)[y].item == s[y].item
      ensures Freed(s, xs)[y].isFree == (y in ring || s[y].isFree)
    {
      FreedAt(s, xs, y);
      assert ring == [ring[0]] + ring[1..];
    }
  }

  /** Both rings of levels as the deallocation loops of CLEAR walk them. */
  ghost predicate Clearable(lb: seq<Block<LevelNode>>, sh: Shape, bb: int, ba: int) {
    && (bb == NULL <==> sh.bids == []) && (ba == NULL <==> sh.asks == [])
    && (sh.bids != [] ==> bb == sh.bids[0] && Ring(LevelLinks(lb), sh.bids))
    && (sh.asks != [] ==> ba == sh.asks[0] && Ring(LevelLinks(lb), sh.asks))
    && (forall i | 0 <= i < |sh.bids| && 0 <= sh.bids[i] < |lb| :: !lb[sh.bids[i]].isFree)
    && (forall i | 0 <= i < |sh.asks| && 0 <= sh.asks[i] < |lb| :: !lb[sh.asks[i]].isFree && sh.asks[i] !in sh.bids)
  }

  /** The facts CLEAR depends on, in a sound book. */
  lemma {:induction false} EmptyIff<O>(m: Mem<O>, sh: Shape, bb: int, ba: int)
    requires Ladder.Inv(m, sh, bb, ba, NULL, NULL)
    ensures BookOf(m, sh, bb, ba) == Book([], []) <==> sh.bids == [] && sh.asks == []
    ensures sh.bids == [] && sh.asks == [] <==> forall k | 0 <= k < |m.slots| :: m.slots[k] == NULL
    ensures Clearable(m.lb, sh, bb, ba)
    ensures sh.bids == [] && sh.asks == [] ==> forall l | 0 <= l < |m.lb| :: m.lb[l].isFree
  {
    hide LevelsOk, LiveOk, Covered, SlotsOk, BookOf, Ladder.SideOk, Clearable;
    if sh.bids == [] && sh.asks == [] {
      NoLevels(m, sh, bb, ba);
    }
    BookHalf(m, sh, bb, ba, Buy);
    SideNonEmpty(m, sh.fifo, Buy, sh.bids, bb);
    SideNonEmpty(m, sh.fifo, Sell, sh.asks, ba);
    LevelsClearable(m, sh, bb, ba);
  }

  lemma {:induction false} EmptyBookOk()
    ensures BookOk(EMPTY_BOOK) && BBOOf(EMPTY_BOOK) == BBO(NO_QUOTE, NO_QUOTE)
  {
  }

  lemma {:induction false} LevelsClearable<O>(m: Mem<O>, sh: Shape, bb: int, ba: int)
    requires Ladder.Inv(m, sh, bb, ba, NULL, NULL)
    ensures Clearable(m.lb, sh, bb, ba)
  {
  }

  lemma {:induction false} NoLevels<O>(m: Mem<O>, sh: Shape, bb: int, ba: int)
    requires Ladder.Inv(m, sh, bb, ba, NULL, NULL) && sh.bids == [] && sh.asks == []
    ensures forall k | 0 <= k < |m.slots| :: m.slots[k] == NULL
    ensures forall l | 0 <= l < |m.lb| :: m.lb[l].isFree
  {
    forall k | 0 <= k < |m.slots| ensures m.slots[k] == NULL {
      assert SlotOk(m, sh.fifo, k);
    }
  }

  lemma {:induction false} SideNonEmpty<O>(m: Mem<O>, fifo: map<int, seq<int>>, side: Side, ring: seq<int>, best: int)
    requires LevelsOk(m, fifo) && Ladder.SideOk(m, fifo, side, ring, best) && |m.slots| > 0
    ensures Flattenable(m.ob, fifo, ring) && (Flat(m.ob, fifo, ring) == [] <==> ring == [])
    ensures forall i | 0 <= i < |ring| && 0 <= ring[i] < |m.lb| :: !m.lb[ring[i]].isFree
    ensures ring != [] ==> exists k | 0 <= k < |m.slots| :: m.slots[k] != NULL
  {
  }

  /** A sound book without best prices has no occupied slot. */
  lemma {:induction false} NullBests<O>(m: Mem<O>, sh: Shape)
    requires Ladder.Inv(m, sh, NULL, NULL, NULL, NULL)
    ensures forall k | 0 <= k < |m.slots| :: m.slots[k] == NULL
  {
    RingNotNull(m.lb, sh.bids, NULL);
    RingNotNull(m.lb, sh.asks, NULL);
    forall k | 0 <= k < |m.slots| ensures m.slots[k] == NULL {
      assert SlotOk(m, sh.fifo, k);
    }
  }

  lemma {:induction false} OneOfId(b: PublicBook, side: Side, k: nat)
    requires BookOk(b) && k < |Half(b, side)|
    ensures Half(b, side)[k].side == side
    ensures forall p | 0 <= p < |Half(b, side)| && Half(b, side)[p].id == Half(b, side)[k].id :: p == k
  {
  }

  lemma {:induction false} QuotesKept(b: PublicBook, u: Update)
    requires BookOk(b) && WellFormed(b, u)
    ensures u.Trade? || u.Add? || u.Modify? || u.Cancel?
    ensures !Touches(b, Buy, u) ==> QuoteOf(Apply(b, u).bids) == QuoteOf(b.bids)
    ensures !Touches(b, Sell, u) ==> QuoteOf(Apply(b, u).asks) == QuoteOf(b.asks)
  {
    if !Touches(b, Buy, u) {
      QuoteKept(b, Buy, u);
    }
    if !Touches(b, Sell, u) {
      QuoteKept(b, Sell, u);
    }
  }

  /** A well-formed ADD finds its slot empty or held by the level of its own price and side. */
  lemma {:induction false} AddIsSafe(b: PublicBook, u: Update, n: nat)
    requires BookOk(b) && u.Add? && WellFormed(b, u) && n > 0 && PriceSafe(b, u.price, n)
    ensures NoCollision(b, u.side, u.price, n)
  {
  }

  lemma {:induction false} QueueRing<O>(m: Mem<O>, fifo: map<int, seq<int>>, l: int)
    requires LevelsOk(m, fifo) && l in fifo
    ensures 0 <= l < |m.lb| && Ring(OrderLinks(m.ob), fifo[l]) && m.lb[l].item.first == fifo[l][0]
  {
  }
}
