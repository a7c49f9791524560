/**
  What one order book of the exchange computes, as functions on sorted sides: the matching loop,
  resting, cancelling, and the messages each of them sends. The linked structure that implements
  it is in MEOrderBook.
*/
module Matching {
  import opened Types
  import opened PriceTime

  datatype Owner = Owner(client: nat, coid: nat)

  /** The book of one ticker together with the next market order id. */
  datatype Exchange = Exchange(book: Book<Owner>, nextId: nat)

  datatype Outcome = Outcome(exchange: Exchange, resps: seq<Response>, upds: seq<Update>)

  /** The aggressive order, as the matching loop sees it. `fillId` is the market order id that
      its fills report: the id truncated to 32 bits by the parameter type of `checkForMatch`. */
  datatype Incoming = Incoming(ticker: nat, owner: Owner, fillId: nat, side: Side, price: int)

  datatype Matched = Matched(opp: seq<Order<Owner>>, leaves: nat, resps: seq<Response>, upds: seq<Update>)

  const EMPTY: Exchange := Exchange(Book([], []), 1)

  predicate Crosses(side: Side, price: int, passive: int) {
    if side.Buy? then price >= passive else price <= passive
  }

  function AggressorFill(inc: Incoming, price: int, exec: nat, leaves: nat): Response {
    Filled(inc.owner.client, inc.ticker, inc.owner.coid, inc.fillId, inc.side, price, exec, leaves)
  }

  function PassiveFill(ticker: nat, h: Order<Owner>, exec: nat, leaves: nat): Response {
    Filled(h.owner.client, ticker, h.owner.coid, h.id, h.side, h.price, exec, leaves)
  }

  /** One match against the order at the front of the opposite side. */
  function MatchHead(inc: Incoming, opp: seq<Order<Owner>>, leaves: nat): Matched
    requires opp != []
  {
    var h := opp[0];
    var fill := Min(leaves, h.qty);
    var resps := [AggressorFill(inc, h.price, fill, leaves - fill), PassiveFill(inc.ticker, h, fill, h.qty - fill)];
    var trade := Trade(inc.ticker, inc.side, h.price, fill);
    if h.qty == fill then
      Matched(opp[1..], leaves - fill, resps,
              [trade, Cancel(h.id, inc.ticker, h.side, h.price, h.qty, PRIORITY_INVALID)])
    else
      Matched(opp[0 := h.(qty := h.qty - fill)], leaves - fill, resps,
              [trade, Modify(h.id, inc.ticker, h.side, h.price, h.qty - fill, h.priority)])
  }

  predicate CanMatch(inc: Incoming, opp: seq<Order<Owner>>, leaves: nat) {
    leaves > 0 && opp != [] && Crosses(inc.side, inc.price, opp[0].price)
  }

  function MatchAll(inc: Incoming, opp: seq<Order<Owner>>, leaves: nat): Matched
    decreases |opp| + leaves
  {
    if !CanMatch(inc, opp, leaves) then Matched(opp, leaves, [], [])
    else
      var m := MatchHead(inc, opp, leaves);
      var rest := MatchAll(inc, m.opp, m.leaves);
      Matched(rest.opp, rest.leaves, m.resps + rest.resps, m.upds + rest.upds)
  }

  function AddOrder(x: Exchange, client: nat, coid: nat, ticker: nat, side: Side, price: int, qty: nat): Outcome {
    var id := x.nextId;
    var owner := Owner(client, coid);
    var m := MatchAll(Incoming(ticker, owner, id % TWO_32, side, price), Half(x.book, Opposite(side)), qty);
    var b := WithHalf(x.book, Opposite(side), m.opp);
    var resps := [Accepted(client, ticker, coid, id, side, price, qty)] + m.resps;
    if m.leaves == 0 then Outcome(Exchange(b, id + 1), resps, m.upds)
    else
      var priority := NextPriority(Half(b, side), side, price);
      var o := Order(owner, id, side, price, m.leaves, priority);
      Outcome(Exchange(WithHalf(b, side, Insert(Half(b, side), o)), id + 1), resps,
              m.upds + [Add(id, ticker, side, price, m.leaves, priority)])
  }

  /** Position of the order with this owner, or |s|. */
  function FindOwner(s: seq<Order<Owner>>, owner: Owner): (k: nat)
    ensures k <= |s|
    ensures forall i | 0 <= i < k :: s[i].owner != owner
    ensures k < |s| ==> s[k].owner == owner
  {
    if s == [] || s[0].owner == owner then 0 else 1 + FindOwner(s[1..], owner)
  }

  function RemoveAt(x: Exchange, side: Side, k: nat, ticker: nat): Outcome
    requires k < |Half(x.book, side)|
  {
    var s := Half(x.book, side);
    var o := s[k];
    Outcome(x.(book := WithHalf(x.book, side, Without(s, k))),
            [Canceled(o.owner.client, ticker, o.owner.coid, o.id, side, o.price, o.qty)],
            [Cancel(o.id, ticker, side, o.price, 0, o.priority)])
  }

  function CancelOwner(x: Exchange, client: nat, coid: nat, ticker: nat): Outcome {
    var owner := Owner(client, coid);
    var i := FindOwner(x.book.bids, owner);
    var j := FindOwner(x.book.asks, owner);
    if i < |x.book.bids| then RemoveAt(x, Buy, i, ticker)
    else if j < |x.book.asks| then RemoveAt(x, Sell, j, ticker)
    else Outcome(x, [CancelRejected(client, ticker, coid)], [])
  }

  function Process(x: Exchange, req: Request): Outcome {
    match req
    case New(client, coid, ticker, side, price, qty) => AddOrder(x, client, coid, ticker, side, price, qty)
    case CancelOrder(client, coid, ticker) => CancelOwner(x, client, coid, ticker)
  }

  // ---------------------------------------------------------------- invariant

  predicate Live(b: Book<Owner>, owner: Owner) {
    (exists i | 0 <= i < |b.bids| :: b.bids[i].owner == owner)
    || (exists i | 0 <= i < |b.asks| :: b.asks[i].owner == owner)
  }

  /** The one thing the exchange demands of its clients: no live duplicate of a client order id. */
  predicate Legal(x: Exchange, req: Request) {
    req.New? ==> !Live(x.book, Owner(req.client, req.coid))
  }

  predicate OrderOk<O>(o: Order<O>, side: Side, nextId: nat) {
    o.side == side && o.qty > 0 && 1 <= o.priority <= o.id < nextId
  }

  predicate PairOk(a: Order<Owner>, b: Order<Owner>) {
    Before(a, b) && a.id != b.id && a.owner != b.owner && (a.price == b.price ==> a.priority < b.priority)
  }

  ghost predicate HalfOk(side: Side, s: seq<Order<Owner>>, nextId: nat) {
    && (forall i | 0 <= i < |s| :: OrderOk(s[i], side, nextId))
    && (forall i, j | 0 <= i < j < |s| :: PairOk(s[i], s[j]))
  }

  /** Bid below ask, and no id or owner on both sides. */
  predicate Apart(bid: Order<Owner>, ask: Order<Owner>) {
    bid.price < ask.price && bid.id != ask.id && bid.owner != ask.owner
  }

  ghost predicate Inv(x: Exchange) {
    && HalfOk(Buy, x.book.bids, x.nextId)
    && HalfOk(Sell, x.book.asks, x.nextId)
    && (forall i, j | 0 <= i < |x.book.bids| && 0 <= j < |x.book.asks| :: Apart(x.book.bids[i], x.book.asks[j]))
  }

  lemma {:induction false} HalfSorted(side: Side, s: seq<Order<Owner>>, nextId: nat)
    requires HalfOk(side, s, nextId)
    ensures Sorted(side, s) && Monotone(side, s)
  {
  }

  lemma {:induction false} HalfOkInsert(side: Side, s: seq<Order<Owner>>, id: nat, o: Order<Owner>)
    requires HalfOk(side, s, id)
    requires o.id == id >= 1 && o.side == side && o.qty > 0
    requires o.priority == NextPriority(s, side, o.price)
    requires forall i | 0 <= i < |s| :: s[i].owner != o.owner
    ensures HalfOk(side, Insert(s, o), id + 1)
  {
    var k := Rank(s, side, o.price);
    var t := Insert(s, o);
    InsertPairs(side, s, id, o);
    hide PairOk, NextPriority;
    NextPriorityBound(side, s, id, o.price);
    forall i | 0 <= i < |t| ensures OrderOk(t[i], side, id + 1) {
      if i != k {
        var i' := if i < k then i else i - 1;
        assert t[i] == s[i'] && OrderOk(s[i'], side, id);
      }
    }
  }

  lemma {:induction false} NextPriorityBound(side: Side, s: seq<Order<Owner>>, id: nat, price: int)
    requires HalfOk(side, s, id) && id >= 1
    ensures 1 <= NextPriority(s, side, price) <= id
  {
    var k := Rank(s, side, price);
    assert k > 0 ==> OrderOk(s[k - 1], side, id);
  }

  lemma {:induction false} InsertPairs(side: Side, s: seq<Order<Owner>>, id: nat, o: Order<Owner>)
    requires HalfOk(side, s, id)
    requires o.id == id && o.side == side && o.priority == NextPriority(s, side, o.price)
    requires forall i | 0 <= i < |s| :: s[i].owner != o.owner
    ensures var t := Insert(s, o); forall i, j | 0 <= i < j < |t| :: PairOk(t[i], t[j])
  {
    var k := Rank(s, side, o.price);
    var t := Insert(s, o);
    HalfSorted(side, s, id);
    if k > 0 {
      assert OrderOk(s[k - 1], side, id);
    }
    forall i, j | 0 <= i < j < |t| ensures PairOk(t[i], t[j]) {
      if j != k && i != k {
        var i' := if i < k then i else i - 1;
        var j' := if j < k then j else j - 1;
        assert t[i] == s[i'] && t[j] == s[j'];
        assert PairOk(s[i'], s[j']);
      } else if j == k {
        assert t[i] == s[i] && OrderOk(s[i], side, id);
        assert i < k - 1 ==> PairOk(s[i], s[k - 1]);
      } else {
        assert t[j] == s[j - 1] && OrderOk(s[j - 1], side, id);
        assert k < j - 1 ==> PairOk(s[k], s[j - 1]);
      }
    }
  }

  /** `t` is what remains of `s` after its first `k` orders were consumed, the next one perhaps partly. */
  ghost predicate Rest(s: seq<Order<Owner>>, t: seq<Order<Owner>>, k: nat) {
    && k + |t| == |s|
    && (forall i | 0 <= i < |t| :: t[i] == s[k + i].(qty := t[i].qty) && 0 < t[i].qty <= s[k + i].qty)
  }

  lemma {:induction false} RestTrans(s: seq<Order<Owner>>, t: seq<Order<Owner>>, u: seq<Order<Owner>>, j: nat, k: nat)
    requires Rest(s, t, j) && Rest(t, u, k)
    ensures Rest(s, u, j + k)
  {
  }

  lemma {:induction false} MatchHeadRest(inc: Incoming, opp: seq<Order<Owner>>, leaves: nat)
    requires CanMatch(inc, opp, leaves) && forall i | 0 <= i < |opp| :: opp[i].qty > 0
    ensures var m := MatchHead(inc, opp, leaves);
            && |m.opp| <= |opp| && Rest(opp, m.opp, |opp| - |m.opp|)
            && m.leaves <= leaves && |m.opp| + m.leaves < |opp| + leaves
  {
  }

  lemma {:induction false} MatchAllStops(inc: Incoming, opp: seq<Order<Owner>>, leaves: nat)
    requires !CanMatch(inc, opp, leaves)
    ensures MatchAll(inc, opp, leaves) == Matched(opp, leaves, [], [])
  {
  }

  lemma {:induction false} MatchAllMore(inc: Incoming, opp: seq<Order<Owner>>, leaves: nat)
    requires CanMatch(inc, opp, leaves)
    ensures var h := MatchHead(inc, opp, leaves);
            var m, m' := MatchAll(inc, opp, leaves), MatchAll(inc, h.opp, h.leaves);
            m == Matched(m'.opp, m'.leaves, h.resps + m'.resps, h.upds + m'.upds)
  {
  }

  /** Matching consumes a prefix of the side and stops only when no further match is possible. */
  lemma {:induction false} MatchAllRest(inc: Incoming, opp: seq<Order<Owner>>, leaves: nat) returns (k: nat)
    requires forall i | 0 <= i < |opp| :: opp[i].qty > 0
    ensures Rest(opp, MatchAll(inc, opp, leaves).opp, k)
    ensures !CanMatch(inc, MatchAll(inc, opp, leaves).opp, MatchAll(inc, opp, leaves).leaves)
    ensures MatchAll(inc, opp, leaves).leaves <= leaves
    decreases |opp| + leaves
  {
    hide MatchHead, MatchAll;
    if !CanMatch(inc, opp, leaves) {
      MatchAllStops(inc, opp, leaves);
      k := 0;
    } else {
      MatchAllMore(inc, opp, leaves);
      var m := MatchHead(inc, opp, leaves);
      var d := |opp| - |m.opp|;
      MatchHeadRest(inc, opp, leaves);
      assert forall i | 0 <= i < |m.opp| :: m.opp[i].qty > 0;
      hide Rest, CanMatch;
      k := MatchAllRest(inc, m.opp, m.leaves);
      RestTrans(opp, m.opp, MatchAll(inc, m.opp, m.leaves).opp, d, k);
      k := k + d;
    }
  }

  lemma {:induction false} RestHalfOk(side: Side, s: seq<Order<Owner>>, nextId: nat, t: seq<Order<Owner>>, k: nat)
    requires HalfOk(side, s, nextId) && Rest(s, t, k)
    ensures HalfOk(side, t, nextId)
  {
  }

  lemma {:induction false} HalfOkLater(side: Side, s: seq<Order<Owner>>, nextId: nat)
    requires HalfOk(side, s, nextId)
    ensures HalfOk(side, s, nextId + 1)
  {
  }

  /** Orders on opposite sides are apart, written for either choice of the first side. */
  predicate ApartAs(side: Side, a: Order<Owner>, b: Order<Owner>) {
    if side.Buy? then Apart(a, b) else Apart(b, a)
  }

  /** The book after matching, before any remainder rests. */
  lemma {:induction false} MatchedBook(x: Exchange, inc: Incoming, qty: nat) returns (k: nat)
    requires Inv(x)
    ensures var m := MatchAll(inc, Half(x.book, Opposite(inc.side)), qty);
            && Rest(Half(x.book, Opposite(inc.side)), m.opp, k)
            && !CanMatch(inc, m.opp, m.leaves) && m.leaves <= qty
            && Inv(Exchange(WithHalf(x.book, Opposite(inc.side), m.opp), x.nextId))
  {
    var opp := Half(x.book, Opposite(inc.side));
    assert forall i | 0 <= i < |opp| :: OrderOk(opp[i], Opposite(inc.side), x.nextId);
    k := MatchAllRest(inc, opp, qty);
    var t := MatchAll(inc, opp, qty).opp;
    RestHalfOk(Opposite(inc.side), opp, x.nextId, t, k);
    RestApart(x, Opposite(inc.side), t, k);
  }

  lemma {:induction false} RestApart(x: Exchange, side: Side, t: seq<Order<Owner>>, k: nat)
    requires Inv(x) && Rest(Half(x.book, side), t, k)
    ensures var b := WithHalf(x.book, side, t);
            forall i, j | 0 <= i < |b.bids| && 0 <= j < |b.asks| :: Apart(b.bids[i], b.asks[j])
  {
  }

  /** Resting a remainder that nothing on the other side crosses keeps the book sound. */
  lemma {:induction false} RestingKeepsInv(x: Exchange, o: Order<Owner>)
    requires Inv(x) && o.id == x.nextId >= 1 && o.qty > 0
    requires o.priority == NextPriority(Half(x.book, o.side), o.side, o.price)
    requires !Live(x.book, o.owner)
    requires var opp := Half(x.book, Opposite(o.side)); opp == [] || !Crosses(o.side, o.price, opp[0].price)
    ensures Inv(Exchange(WithHalf(x.book, o.side, Insert(Half(x.book, o.side), o)), x.nextId + 1))
  {
    var own := Half(x.book, o.side);
    var opp := Half(x.book, Opposite(o.side));
    var t := Insert(own, o);
    var b := WithHalf(x.book, o.side, t);
    RestingApart(x, o);
    hide NextPriority, Crosses, Insert, HalfOk;
    HalfOkInsert(o.side, own, x.nextId, o);
    HalfOkLater(Opposite(o.side), opp, x.nextId);
    forall i, j | 0 <= i < |b.bids| && 0 <= j < |b.asks| ensures Apart(b.bids[i], b.asks[j]) {
      assert if o.side.Buy? then ApartAs(o.side, t[i], opp[j]) else ApartAs(o.side, t[j], opp[i]);
    }
  }

  lemma {:induction false} RestingApart(x: Exchange, o: Order<Owner>)
    requires Inv(x) && o.id == x.nextId && !Live(x.book, o.owner)
    requires var opp := Half(x.book, Opposite(o.side)); opp == [] || !Crosses(o.side, o.price, opp[0].price)
    ensures var t, opp := Insert(Half(x.book, o.side), o), Half(x.book, Opposite(o.side));
            forall i, j | 0 <= i < |t| && 0 <= j < |opp| :: ApartAs(o.side, t[i], opp[j])
  {
    var own, opp := Half(x.book, o.side), Half(x.book, Opposite(o.side));
    var t := Insert(own, o);
    HalfSorted(Opposite(o.side), opp, x.nextId);
    forall i, j | 0 <= i < |t| && 0 <= j < |opp| ensures ApartAs(o.side, t[i], opp[j]) {
      InsertMembers(own, o, t[i]);
      assert OrderOk(opp[j], Opposite(o.side), x.nextId);
      if t[i] != o {
        var i' :| 0 <= i' < |own| && own[i'] == t[i];
        assert ApartAs(o.side, own[i'], opp[j]);
      } else {
        assert j == 0 || !Better(Opposite(o.side), opp[j].price, opp[0].price);
      }
    }
  }

  lemma {:induction false} RemoveAtKeepsInv(x: Exchange, side: Side, k: nat, ticker: nat)
    requires Inv(x) && k < |Half(x.book, side)|
    ensures Inv(RemoveAt(x, side, k, ticker).exchange)
  {
  }

  lemma {:induction false} RestNotLive(b: Book<Owner>, side: Side, t: seq<Order<Owner>>, k: nat, owner: Owner)
    requires Rest(Half(b, side), t, k) && !Live(b, owner)
    ensures !Live(WithHalf(b, side, t), owner)
  {
  }

  lemma {:induction false} InvLater(x: Exchange)
    requires Inv(x)
    ensures Inv(x.(nextId := x.nextId + 1))
  {
    HalfOkLater(Buy, x.book.bids, x.nextId);
    HalfOkLater(Sell, x.book.asks, x.nextId);
  }

  lemma {:induction false} NewKeepsInv(x: Exchange, req: Request)
    requires Inv(x) && x.nextId >= 1 && Legal(x, req) && req.New?
    ensures Inv(Process(x, req).exchange) && Process(x, req).exchange.nextId >= x.nextId
  {
    hide MatchAll, Inv, Live, Rest, NextPriority, Insert;
    var owner, side, price := Owner(req.client, req.coid), req.side, req.price;
    var inc := Incoming(req.ticker, owner, x.nextId % TWO_32, side, price);
    var opp := Half(x.book, Opposite(side));
    var m := MatchAll(inc, opp, req.qty);
    var k := MatchedBook(x, inc, req.qty);
    var y := Exchange(WithHalf(x.book, Opposite(side), m.opp), x.nextId);
    if m.leaves == 0 {
      InvLater(y);
    } else {
      RestNotLive(x.book, Opposite(side), m.opp, k, owner);
      RestingKeepsInv(y, Order(owner, x.nextId, side, price, m.leaves,
          NextPriority(Half(y.book, side), side, price)));
    }
  }

  /** Every request keeps the book sorted, uncrossed and free of duplicates. */
  lemma {:induction false} ProcessKeepsInv(x: Exchange, req: Request)
    requires Inv(x) && x.nextId >= 1 && Legal(x, req)
    ensures Inv(Process(x, req).exchange) && Process(x, req).exchange.nextId >= x.nextId
  {
    match req
    case New(client, coid, ticker, side, price, qty) => NewKeepsInv(x, req);
    case CancelOrder(client, coid, ticker) =>
      var owner := Owner(client, coid);
      var i := FindOwner(x.book.bids, owner);
      var j := FindOwner(x.book.asks, owner);
      if i < |x.book.bids| {
        RemoveAtKeepsInv(x, Buy, i, ticker);
      } else if j < |x.book.asks| {
        RemoveAtKeepsInv(x, Sell, j, ticker);
      }
  }

  // ---------------------------------------------------------------- price-time priority

  /** Quantity standing in front of position `i`. */
  function Ahead(s: seq<Order<Owner>>, i: nat): nat
    requires i <= |s|
  {
    if i == 0 then 0 else Ahead(s, i - 1) + s[i - 1].qty
  }

  /** What greedy price-time priority gives the order at position `i` from an incoming quantity. */
  function Share(inc: Incoming, s: seq<Order<Owner>>, qty: nat, i: nat): nat
    requires i < |s|
  {
    if Crosses(inc.side, inc.price, s[i].price) && Ahead(s, i) < qty then Min(s[i].qty, qty - Ahead(s, i)) else 0
  }

  function TotalShare(inc: Incoming, s: seq<Order<Owner>>, qty: nat, i: nat): (total: nat)
    requires i <= |s|
    ensures total <= qty && total <= Ahead(s, i)
  {
    if i == 0 then 0 else TotalShare(inc, s, qty, i - 1) + Share(inc, s, qty, i - 1)
  }

  lemma {:induction false} AheadTail(s: seq<Order<Owner>>, i: nat)
    requires 1 <= i <= |s|
    ensures Ahead(s, i) == s[0].qty + Ahead(s[1..], i - 1)
  {
    if i > 1 {
      AheadTail(s, i - 1);
      assert s[1..][i - 2] == s[i - 1];
    }
  }

  /**
    The `i`-th pair of fills: both at the price of the `i`-th order, for its share, each naming its own party and what
    that party has left.
  */
  predicate FillAt(inc: Incoming, s: seq<Order<Owner>>, qty: nat, resps: seq<Response>, i: nat) {
    && i < |s| && 2 * i + 1 < |resps|
    && var share := Share(inc, s, qty, i);
       && share > 0 && Crosses(inc.side, inc.price, s[i].price)
       && resps[2 * i] == Filled(inc.owner.client, inc.ticker, inc.owner.coid, inc.fillId, inc.side, s[i].price, share,
                                 qty - TotalShare(inc, s, qty, i + 1))
       && resps[2 * i + 1] == Filled(s[i].owner.client, inc.ticker, s[i].owner.coid, s[i].id, s[i].side, s[i].price,
                                     share, s[i].qty - share)
  }

  /**
    The `i`-th pair of public updates: a TRADE on the aggressor's side at the price of the `i`-th order and for its
    share, then what becomes of that order. An order that is used up is cancelled with the quantity it had.
  */
  predicate TradeAt(inc: Incoming, s: seq<Order<Owner>>, qty: nat, upds: seq<Update>, i: nat) {
    && i < |s| && 2 * i + 1 < |upds|
    && var share := Share(inc, s, qty, i);
       && upds[2 * i] == Trade(inc.ticker, inc.side, s[i].price, share)
       && upds[2 * i + 1] ==
          if share == s[i].qty
          then Cancel(s[i].id, inc.ticker, s[i].side, s[i].price, s[i].qty, PRIORITY_INVALID)
          else Modify(s[i].id, inc.ticker, s[i].side, s[i].price, s[i].qty - share, s[i].priority)
  }

  /** The first `n` orders are the ones that trade: fills and trades are exactly the greedy shares. */
  ghost predicate Greedy(inc: Incoming, s: seq<Order<Owner>>, qty: nat, m: Matched, n: nat) {
    && n <= |s|
    && |m.resps| == |m.upds| == 2 * n
    && (forall i | 0 <= i < n :: FillAt(inc, s, qty, m.resps, i))
    && (forall i | 0 <= i < n :: TradeAt(inc, s, qty, m.upds, i))
    && (forall i | n <= i < |s| :: Share(inc, s, qty, i) == 0)
    && m.leaves == qty - TotalShare(inc, s, qty, |s|)
    && m.opp == Unfilled(inc, s, qty, |s|)
  }

  /** The orders among the first `i` that keep some quantity, with what they keep. */
  function Unfilled(inc: Incoming, s: seq<Order<Owner>>, qty: nat, i: nat): seq<Order<Owner>>
    requires i <= |s|
  {
    if i == 0 then []
    else
      var left := s[i - 1].qty - Share(inc, s, qty, i - 1);
      Unfilled(inc, s, qty, i - 1) + if left == 0 then [] else [s[i - 1].(qty := left)]
  }

  lemma {:induction false} ShareTail(inc: Incoming, s: seq<Order<Owner>>, qty: nat, i: nat)
    requires 1 <= i < |s| && s[0].qty <= qty
    ensures Share(inc, s, qty, i) == Share(inc, s[1..], qty - s[0].qty, i - 1)
  {
    AheadTail(s, i);
  }

  lemma {:induction false} TotalShareTail(inc: Incoming, s: seq<Order<Owner>>, qty: nat, i: nat)
    requires 1 <= i <= |s| && s[0].qty <= qty && Crosses(inc.side, inc.price, s[0].price) && s[0].qty > 0
    ensures TotalShare(inc, s, qty, i) == s[0].qty + TotalShare(inc, s[1..], qty - s[0].qty, i - 1)
  {
    if i > 1 {
      TotalShareTail(inc, s, qty, i - 1);
      ShareTail(inc, s, qty, i - 1);
    } else {
      assert TotalShare(inc, s, qty, 0) == 0 && Ahead(s, 0) == 0;
    }
  }

  lemma {:induction false} UnfilledTail(inc: Incoming, s: seq<Order<Owner>>, qty: nat, i: nat)
    requires 1 <= i <= |s| && s[0].qty <= qty && Crosses(inc.side, inc.price, s[0].price) && s[0].qty > 0
    ensures Unfilled(inc, s, qty, i) == Unfilled(inc, s[1..], qty - s[0].qty, i - 1)
  {
    if i > 1 {
      UnfilledTail(inc, s, qty, i - 1);
      ShareTail(inc, s, qty, i - 1);
      assert s[1..][i - 2] == s[i - 1];
    } else {
      assert Unfilled(inc, s, qty, 0) == [] && Ahead(s, 0) == 0;
    }
  }

  /** Once the incoming quantity is used up inside the first order, nobody else trades. */
  lemma {:induction false} OnlyHeadTrades(inc: Incoming, s: seq<Order<Owner>>, qty: nat, i: nat)
    requires 1 <= i <= |s| && s[0].qty > qty > 0 && Crosses(inc.side, inc.price, s[0].price)
    requires forall k | 0 <= k < |s| :: s[k].qty > 0
    ensures Ahead(s, i) >= qty && TotalShare(inc, s, qty, i) == qty
    ensures Unfilled(inc, s, qty, i) == s[..i][0 := s[0].(qty := s[0].qty - qty)]
  {
    if i == 1 {
      assert Ahead(s, 0) == 0 && TotalShare(inc, s, qty, 0) == 0 && Unfilled(inc, s, qty, 0) == [];
    } else {
      OnlyHeadTrades(inc, s, qty, i - 1);
      assert s[i - 1].(qty := s[i - 1].qty) == s[i - 1];
    }
  }

  /** No order crosses: nothing trades. */
  lemma {:induction false} NobodyTrades(inc: Incoming, s: seq<Order<Owner>>, qty: nat, i: nat)
    requires i <= |s|
    requires forall k | 0 <= k < |s| :: s[k].qty > 0
    requires qty == 0 || forall k | 0 <= k < |s| :: !Crosses(inc.side, inc.price, s[k].price)
    ensures TotalShare(inc, s, qty, i) == 0 && Unfilled(inc, s, qty, i) == s[..i]
  {
    if i > 0 {
      NobodyTrades(inc, s, qty, i - 1);
      assert s[i - 1].(qty := s[i - 1].qty) == s[i - 1];
    }
  }

  /**
    Price-time priority: the matching loop fills exactly the greedy prefix of the opposite side,
    each order at its own price and for its share, and leaves the rest of the side untouched.
  */
  lemma {:induction false} FillsAreGreedy(inc: Incoming, s: seq<Order<Owner>>, qty: nat) returns (n: nat)
    requires Monotone(Opposite(inc.side), s) && forall i | 0 <= i < |s| :: s[i].qty > 0
    ensures Greedy(inc, s, qty, MatchAll(inc, s, qty), n)
    decreases |s|
  {
    if !CanMatch(inc, s, qty) {
      n := 0;
      forall k | 0 <= k < |s| && qty > 0 ensures !Crosses(inc.side, inc.price, s[k].price) {
        assert k == 0 || !Better(Opposite(inc.side), s[k].price, s[0].price);
      }
      NobodyTrades(inc, s, qty, |s|);
      assert s[..|s|] == s;
    } else if qty < s[0].qty {
      n := 1;
      GreedyHead(inc, s, qty);
    } else {
      var k := FillsAreGreedy(inc, s[1..], qty - s[0].qty);
      n := k + 1;
      GreedyTail(inc, s, qty, k);
    }
  }

  lemma {:induction false} GreedyHead(inc: Incoming, s: seq<Order<Owner>>, qty: nat)
    requires CanMatch(inc, s, qty) && qty < s[0].qty && forall i | 0 <= i < |s| :: s[i].qty > 0
    ensures Greedy(inc, s, qty, MatchAll(inc, s, qty), 1)
  {
    var m := MatchHead(inc, s, qty);
    assert MatchAll(inc, m.opp, m.leaves) == Matched(m.opp, 0, [], []);
    assert MatchAll(inc, s, qty) == m;
    OnlyHeadTrades(inc, s, qty, |s|);
    assert s[..|s|] == s;
    assert Ahead(s, 0) == 0 && Share(inc, s, qty, 0) == qty;
    OnlyHeadTrades(inc, s, qty, 1);
    forall i | 1 <= i < |s| ensures Share(inc, s, qty, i) == 0 {
      OnlyHeadTrades(inc, s, qty, i);
    }
    assert FillAt(inc, s, qty, m.resps, 0) && TradeAt(inc, s, qty, m.upds, 0);
  }

  lemma {:induction false} GreedyTail(inc: Incoming, s: seq<Order<Owner>>, qty: nat, k: nat)
    requires CanMatch(inc, s, qty) && 0 < s[0].qty <= qty
    requires Greedy(inc, s[1..], qty - s[0].qty, MatchAll(inc, s[1..], qty - s[0].qty), k)
    ensures Greedy(inc, s, qty, MatchAll(inc, s, qty), k + 1)
  {
    hide MatchAll, MatchHead, Unfilled, Share, TotalShare, FillAt, TradeAt;
    var m := MatchAll(inc, s, qty);
    var m' := MatchAll(inc, s[1..], qty - s[0].qty);
    MatchAllTail(inc, s, qty);
    TotalShareTail(inc, s, qty, |s|);
    UnfilledTail(inc, s, qty, |s|);
    forall i | k + 1 <= i < |s| ensures Share(inc, s, qty, i) == 0 {
      ShareTail(inc, s, qty, i);
    }
    forall i | 0 <= i < k + 1 ensures FillAt(inc, s, qty, m.resps, i) && TradeAt(inc, s, qty, m.upds, i) {
      FillAtTail(inc, s, qty, m.resps, m'.resps, i);
      TradeAtTail(inc, s, qty, m.upds, m'.upds, i);
    }
  }

  lemma {:induction false} MatchAllTail(inc: Incoming, s: seq<Order<Owner>>, qty: nat)
    requires CanMatch(inc, s, qty) && 0 < s[0].qty <= qty
    ensures var h, m, m' := MatchHead(inc, s, qty), MatchAll(inc, s, qty), MatchAll(inc, s[1..], qty - s[0].qty);
            && m == Matched(m'.opp, m'.leaves, h.resps + m'.resps, h.upds + m'.upds)
            && |h.resps| == |h.upds| == 2
  {
  }

  lemma {:induction false} TradeAtTail(
      inc: Incoming, s: seq<Order<Owner>>, qty: nat, upds: seq<Update>, upds': seq<Update>, i: nat)
    requires CanMatch(inc, s, qty) && 0 < s[0].qty <= qty && i < |s|
    requires upds == MatchHead(inc, s, qty).upds + upds'
    requires i > 0 ==> TradeAt(inc, s[1..], qty - s[0].qty, upds', i - 1)
    ensures TradeAt(inc, s, qty, upds, i)
  {
    if i == 0 {
      assert Ahead(s, 0) == 0;
    } else {
      ShareTail(inc, s, qty, i);
      assert s[1..][i - 1] == s[i];
      assert upds[2 * i] == upds'[2 * (i - 1)] && upds[2 * i + 1] == upds'[2 * (i - 1) + 1];
    }
  }

  lemma {:induction false} FillAtTail(
      inc: Incoming, s: seq<Order<Owner>>, qty: nat, resps: seq<Response>, resps': seq<Response>, i: nat)
    requires CanMatch(inc, s, qty) && 0 < s[0].qty <= qty && i < |s|
    requires resps == MatchHead(inc, s, qty).resps + resps'
    requires i > 0 ==> FillAt(inc, s[1..], qty - s[0].qty, resps', i - 1)
    ensures FillAt(inc, s, qty, resps, i)
  {
    TotalShareTail(inc, s, qty, i + 1);
    if i == 0 {
      assert Ahead(s, 0) == 0 && TotalShare(inc, s[1..], qty - s[0].qty, 0) == 0;
    } else {
      ShareTail(inc, s, qty, i);
      assert s[1..][i - 1] == s[i];
      assert resps[2 * i] == resps'[2 * (i - 1)] && resps[2 * i + 1] == resps'[2 * (i - 1) + 1];
    }
  }

  /** Any remainder of the incoming order finds no crossing order left. */
  lemma {:induction false} RemainderCrossesNothing(x: Exchange, inc: Incoming, qty: nat)
    requires Inv(x)
    ensures var m := MatchAll(inc, Half(x.book, Opposite(inc.side)), qty);
            m.leaves > 0 ==> forall i | 0 <= i < |m.opp| :: !Crosses(inc.side, inc.price, m.opp[i].price)
  {
    hide MatchAll, Rest;
    var k := MatchedBook(x, inc, qty);
    var m := MatchAll(inc, Half(x.book, Opposite(inc.side)), qty);
    HalfSorted(Opposite(inc.side), m.opp, x.nextId);
    forall i | 0 <= i < |m.opp| && m.leaves > 0 ensures !Crosses(inc.side, inc.price, m.opp[i].price) {
      assert i == 0 || !Better(Opposite(inc.side), m.opp[i].price, m.opp[0].price);
    }
  }
}
