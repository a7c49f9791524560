/**
  Who is told what. Market order ids number the new orders of a ticker from one. Every response of a run names the
  client, order and side of the request that its id stands for; it is accepted and cancelled at the price it asked for
  and filled at that price or a better one; and a cancel is answered by what the book holds for its owner.
*/
module Attribution {
  import opened Types
  import opened PriceTime
  import opened Matching
  import opened Feed

  /** The new orders of a ticker, in the order in which they were handled. */
  function NewsOn(reqs: seq<Request>, t: nat): seq<Request> {
    if reqs == [] then []
    else
      var req := reqs[|reqs| - 1];
      NewsOn(reqs[..|reqs| - 1], t) + if req.New? && req.ticker == t then [req] else []
  }

  /** The new order that a market order id stands for. */
  predicate Stands(ns: seq<Request>, id: nat, client: nat, coid: nat, side: Side) {
    1 <= id <= |ns| && var req := ns[id - 1]; req.New? && req.client == client && req.coid == coid && req.side == side
  }

  /** The response is about the request behind its id, at a price that request allows. */
  predicate Attributed(ns: seq<Request>, r: Response) {
    !r.CancelRejected? ==>
      && Stands(ns, r.moid, r.client, r.coid, r.side)
      && var req := ns[r.moid - 1];
         match r
         case Accepted(_, _, _, _, _, price, leaves) => price == req.price && leaves == req.qty
         case Canceled(_, _, _, _, _, price, _) => price == req.price
         case Filled(_, _, _, _, _, price, _, _) => if req.side.Buy? then price <= req.price else price >= req.price
  }

  /** A resting order is the one its id stands for, at its own price. */
  predicate Known(ns: seq<Request>, o: Order<Owner>) {
    Stands(ns, o.id, o.owner.client, o.owner.coid, o.side) && ns[o.id - 1].price == o.price
  }

  ghost predicate AllKnown(ns: seq<Request>, s: seq<Order<Owner>>) {
    forall i | 0 <= i < |s| :: Known(ns, s[i])
  }

  ghost predicate AllAttributed(ns: seq<Request>, rs: seq<Response>) {
    forall i | 0 <= i < |rs| :: Attributed(ns, rs[i])
  }

  lemma {:induction false} MatchHeadAttributed(
      inc: Incoming, opp: seq<Order<Owner>>, leaves: nat, ns: seq<Request>)
    requires CanMatch(inc, opp, leaves) && AllKnown(ns, opp)
    requires Stands(ns, inc.fillId, inc.owner.client, inc.owner.coid, inc.side) && ns[inc.fillId - 1].price == inc.price
    ensures AllAttributed(ns, MatchHead(inc, opp, leaves).resps) && AllKnown(ns, MatchHead(inc, opp, leaves).opp)
  {
    assert Known(ns, opp[0]);
  }

  /** Fills of the matching loop: at the passive price, which the aggressor's limit allows. */
  lemma {:induction false} MatchAllAttributed(inc: Incoming, opp: seq<Order<Owner>>, leaves: nat, ns: seq<Request>)
    requires AllKnown(ns, opp)
    requires Stands(ns, inc.fillId, inc.owner.client, inc.owner.coid, inc.side) && ns[inc.fillId - 1].price == inc.price
    ensures AllAttributed(ns, MatchAll(inc, opp, leaves).resps) && AllKnown(ns, MatchAll(inc, opp, leaves).opp)
    decreases |opp| + leaves
  {
    hide MatchHead, MatchAll, AllKnown, Attributed, Stands;
    if !CanMatch(inc, opp, leaves) {
      MatchAllStops(inc, opp, leaves);
    } else {
      MatchAllMore(inc, opp, leaves);
      MatchHeadAttributed(inc, opp, leaves, ns);
      var m := MatchHead(inc, opp, leaves);
      MatchHeadLess(inc, opp, leaves);
      MatchAllAttributed(inc, m.opp, m.leaves, ns);
    }
  }

  lemma {:induction false} MatchHeadLess(inc: Incoming, opp: seq<Order<Owner>>, leaves: nat)
    requires CanMatch(inc, opp, leaves)
    ensures var m := MatchHead(inc, opp, leaves); |m.opp| + m.leaves < |opp| + leaves
  {
  }

  lemma {:induction false} KnownLater(ns: seq<Request>, req: Request, s: seq<Order<Owner>>)
    requires AllKnown(ns, s)
    ensures AllKnown(ns + [req], s)
  {
  }

  /** A new order, as the last of its ticker. */
  lemma {:induction false} NewAttributed(x: Exchange, req: Request, ns: seq<Request>)
    requires req.New? && x.nextId == |ns| + 1 < TWO_32 && AllKnown(ns, x.book.bids) && AllKnown(ns, x.book.asks)
    ensures var out, ms := Process(x, req), ns + [req];
            && AllAttributed(ms, out.resps) && out.exchange.nextId == |ms| + 1
            && AllKnown(ms, out.exchange.book.bids) && AllKnown(ms, out.exchange.book.asks)
  {
    var ms := ns + [req];
    var inc := Incoming(req.ticker, Owner(req.client, req.coid), x.nextId % TWO_32, req.side, req.price);
    KnownLater(ns, req, x.book.bids);
    KnownLater(ns, req, x.book.asks);
    assert inc.fillId == |ms| && ms[inc.fillId - 1] == req;
    hide MatchAll, Insert, NextPriority;
    MatchAllAttributed(inc, Half(x.book, Opposite(req.side)), req.qty, ms);
    var m := MatchAll(inc, Half(x.book, Opposite(req.side)), req.qty);
    var y := WithHalf(x.book, Opposite(req.side), m.opp);
    if m.leaves > 0 {
      var own := Half(y, req.side);
      var o := Order(inc.owner, x.nextId, req.side, req.price, m.leaves, NextPriority(own, req.side, req.price));
      InsertKnown(ms, own, o);
    }
  }

  /** The highest priority among the orders at a price, or zero. */
  function Highest(s: seq<Order<Owner>>, price: int): (p: nat)
    ensures forall i | 0 <= i < |s| && s[i].price == price :: s[i].priority <= p
    ensures p == 0 || exists i :: 0 <= i < |s| && s[i].price == price && s[i].priority == p
  {
    if s == [] then 0
    else
      var p, o := Highest(s[..|s| - 1], price), s[|s| - 1];
      if o.price == price && o.priority > p then o.priority else p
  }

  /** A newcomer's priority is one more than any at its price. */
  lemma {:induction false} NextIsHighest(side: Side, s: seq<Order<Owner>>, id: nat, price: int)
    requires HalfOk(side, s, id)
    ensures NextPriority(s, side, price) == Highest(s, price) + 1
  {
    HalfSorted(side, s, id);
    var k := Rank(s, side, price);
    var p := Highest(s, price);
    hide Highest;
    forall i | 0 <= i < |s| && s[i].price == price
      ensures i < k && s[k - 1].price == price && s[i].priority <= s[k - 1].priority
    {
      assert i == k - 1 || (i < k - 1 ==> PairOk(s[i], s[k - 1]));
    }
    if p > 0 {
      var i :| 0 <= i < |s| && s[i].price == price && s[i].priority == p;
      assert s[k - 1].priority <= p;
    } else if k > 0 {
      assert OrderOk(s[k - 1], side, id);
    }
  }

  /** What a new order does, in full: ACCEPTED, the greedy fills and trades, and the remainder behind its level. */
  ghost predicate Answers(x: Exchange, req: Request, out: Outcome, m: Matched, n: nat)
    requires req.New?
  {
    var inc := Incoming(req.ticker, Owner(req.client, req.coid), x.nextId % TWO_32, req.side, req.price);
    var own := Half(x.book, req.side);
    var b := WithHalf(x.book, Opposite(req.side), m.opp);
    var priority := Highest(own, req.price) + 1;
    && Greedy(inc, Half(x.book, Opposite(req.side)), req.qty, m, n)
    && out.resps == [Accepted(req.client, req.ticker, req.coid, x.nextId, req.side, req.price, req.qty)] + m.resps
    && out.exchange.nextId == x.nextId + 1
    && if m.leaves == 0 then out.upds == m.upds && out.exchange.book == b
       else
         && out.upds == m.upds + [Add(x.nextId, req.ticker, req.side, req.price, m.leaves, priority)]
         && out.exchange.book == Inserted(b, Order(inc.owner, x.nextId, req.side, req.price, m.leaves, priority))
  }

  lemma {:induction false} NewSays(x: Exchange, req: Request) returns (m: Matched, n: nat)
    requires Inv(x) && req.New?
    ensures Answers(x, req, Process(x, req), m, n)
  {
    hide MatchAll, Highest, NextPriority, Insert, Greedy, HalfOk, Monotone;
    var inc := Incoming(req.ticker, Owner(req.client, req.coid), x.nextId % TWO_32, req.side, req.price);
    var own, opp := Half(x.book, req.side), Half(x.book, Opposite(req.side));
    m := MatchAll(inc, opp, req.qty);
    SideFacts(x, Opposite(req.side));
    n := FillsAreGreedy(inc, opp, req.qty);
    NextIsHighest(req.side, own, x.nextId, req.price);
  }

  lemma {:induction false} SideFacts(x: Exchange, side: Side)
    requires Inv(x)
    ensures HalfOk(side, Half(x.book, side), x.nextId) && Monotone(side, Half(x.book, side))
    ensures forall i | 0 <= i < |Half(x.book, side)| :: Half(x.book, side)[i].qty > 0
  {
    HalfSorted(side, Half(x.book, side), x.nextId);
    assert forall i | 0 <= i < |Half(x.book, side)| :: OrderOk(Half(x.book, side)[i], side, x.nextId);
  }

  lemma {:induction false} InsertKnown(ns: seq<Request>, s: seq<Order<Owner>>, o: Order<Owner>)
    requires AllKnown(ns, s) && Known(ns, o)
    ensures AllKnown(ns, Insert(s, o))
  {
  }

  /** What a cancel does: it takes the owner's one order out and says what was left of it, or it is rejected. */
  lemma {:induction false} CancelSays(x: Exchange, client: nat, coid: nat, ticker: nat)
    requires Inv(x)
    ensures var out := Process(x, CancelOrder(client, coid, ticker));
            if !Live(x.book, Owner(client, coid)) then
              out == Outcome(x, [CancelRejected(client, ticker, coid)], [])
            else
              exists side, k: nat :: Takes(x, out, side, k, Owner(client, coid), ticker)
  {
    var owner := Owner(client, coid);
    var i, j := FindOwner(x.book.bids, owner), FindOwner(x.book.asks, owner);
    var out := Process(x, CancelOrder(client, coid, ticker));
    if i < |x.book.bids| {
      assert Takes(x, out, Buy, i, owner, ticker);
    } else if j < |x.book.asks| {
      assert Takes(x, out, Sell, j, owner, ticker);
    }
  }

  /** The order at place `k` of a side is the owner's; it alone leaves, and both messages describe it. */
  ghost predicate Takes(x: Exchange, out: Outcome, side: Side, k: nat, owner: Owner, ticker: nat) {
    && k < |Half(x.book, side)|
    && var o := Half(x.book, side)[k];
       && o.owner == owner
       && out.exchange == x.(book := WithHalf(x.book, side, Without(Half(x.book, side), k)))
       && out.resps == [Canceled(owner.client, ticker, owner.coid, o.id, side, o.price, o.qty)]
       && out.upds == [Cancel(o.id, ticker, side, o.price, 0, o.priority)]
  }

  lemma {:induction false} CancelAttributed(x: Exchange, req: Request, ns: seq<Request>)
    requires req.CancelOrder? && Inv(x) && AllKnown(ns, x.book.bids) && AllKnown(ns, x.book.asks)
    ensures var out := Process(x, req);
            && AllAttributed(ns, out.resps) && out.exchange.nextId == x.nextId
            && AllKnown(ns, out.exchange.book.bids) && AllKnown(ns, out.exchange.book.asks)
  {
    hide Process;
    CancelSays(x, req.client, req.coid, req.ticker);
    var out := Process(x, req);
    if Live(x.book, Owner(req.client, req.coid)) {
      var side, k: nat :| Takes(x, out, side, k, Owner(req.client, req.coid), req.ticker);
      assert Known(ns, Half(x.book, side)[k]) && OrderOk(Half(x.book, side)[k], side, x.nextId);
      hide Known, Inv;
    }
  }

  // ---------------------------------------------------------------- over whole runs

  /** The response `r` of a run, given all requests so far. */
  ghost predicate Told(reqs: seq<Request>, r: Response) {
    if r.CancelRejected? then CancelOrder(r.client, r.coid, r.ticker) in reqs else Attributed(NewsOn(reqs, r.ticker), r)
  }

  ghost predicate BookKnown(reqs: seq<Request>, x: Exchange, t: nat) {
    && AllKnown(NewsOn(reqs, t), x.book.bids) && AllKnown(NewsOn(reqs, t), x.book.asks)
    && x.nextId == |NewsOn(reqs, t)| + 1
  }

  lemma {:induction false} NewsCounted(reqs: seq<Request>, t: nat)
    ensures |NewsOn(reqs, t)| <= |reqs|
  {
    if reqs != [] {
      NewsCounted(reqs[..|reqs| - 1], t);
    }
  }

  lemma {:induction false} NewsMore(reqs: seq<Request>, req: Request, t: nat)
    ensures NewsOn(reqs + [req], t) == NewsOn(reqs, t) + if req.New? && req.ticker == t then [req] else []
  {
    assert (reqs + [req])[..|reqs|] == reqs;
  }

  lemma {:induction false} ToldLater(reqs: seq<Request>, req: Request, r: Response)
    requires Told(reqs, r)
    ensures Told(reqs + [req], r)
  {
    NewsMore(reqs, req, r.ticker);
    hide NewsOn;
  }

  /** One request: what it answers is attributed, and the book stays known. */
  lemma {:induction false} ProcessTold(x: Exchange, reqs: seq<Request>, req: Request)
    requires Inv(x) && BookKnown(reqs, x, req.ticker) && |reqs| + 1 < TWO_32
    ensures var out := Process(x, req);
            && BookKnown(reqs + [req], out.exchange, req.ticker)
            && forall i | 0 <= i < |out.resps| :: Told(reqs + [req], out.resps[i])
  {
    var t := req.ticker;
    NewsMore(reqs, req, t);
    NewsCounted(reqs, t);
    SameTicker(x, req);
    hide NewsOn, Process, Attributed, AllKnown, Inv;
    if req.New? {
      NewAttributed(x, req, NewsOn(reqs, t));
    } else {
      CancelAttributed(x, req, NewsOn(reqs, t));
      assert NewsOn(reqs + [req], t) == NewsOn(reqs, t);
    }
  }

  /** Responses carry the ticker of the request, and a rejection its client and order id. */
  lemma {:induction false} SameTicker(x: Exchange, req: Request)
    ensures var rs := Process(x, req).resps;
            forall i | 0 <= i < |rs| ::
              rs[i].ticker == req.ticker
              && (rs[i].CancelRejected? ==> req == CancelOrder(rs[i].client, rs[i].coid, rs[i].ticker))
  {
    if req.New? {
      var inc := Incoming(req.ticker, Owner(req.client, req.coid), x.nextId % TWO_32, req.side, req.price);
      hide MatchAll, Insert, NextPriority;
      FillsOnly(inc, Half(x.book, Opposite(req.side)), req.qty);
      var rs, fills := Process(x, req).resps, MatchAll(inc, Half(x.book, Opposite(req.side)), req.qty).resps;
      forall i | 0 <= i < |rs| ensures rs[i].ticker == req.ticker && !rs[i].CancelRejected? {
        assert i > 0 ==> rs[i] == fills[i - 1] && fills[i - 1].Filled?;
      }
    }
  }

  ghost predicate OnlyFills(rs: seq<Response>, t: nat) {
    forall i | 0 <= i < |rs| :: rs[i].Filled? && rs[i].ticker == t
  }

  lemma {:induction false} FillsOnly(inc: Incoming, opp: seq<Order<Owner>>, leaves: nat)
    ensures OnlyFills(MatchAll(inc, opp, leaves).resps, inc.ticker)
    decreases |opp| + leaves
  {
    hide MatchAll;
    if !CanMatch(inc, opp, leaves) {
      MatchAllStops(inc, opp, leaves);
    } else {
      MatchAllMore(inc, opp, leaves);
      var m := MatchHead(inc, opp, leaves);
      MatchHeadLess(inc, opp, leaves);
      FillsOnly(inc, m.opp, m.leaves);
    }
  }

  ghost predicate AllTold(n: nat, reqs: seq<Request>, e: Engine) {
    && |e.books| == n
    && (forall i | 0 <= i < |e.resps| :: Told(reqs, e.resps[i]))
    && (forall t | 0 <= t < n :: BookKnown(reqs, e.books[t], t))
  }

  lemma {:induction false} HandleTold(n: nat, reqs: seq<Request>, e: Engine, req: Request)
    requires AllTold(n, reqs, e) && req.ticker < n && Inv(e.books[req.ticker]) && |reqs| + 1 < TWO_32
    ensures AllTold(n, reqs + [req], Handle(e, req))
  {
    hide Told, BookKnown, Process, Inv;
    var x := e.books[req.ticker];
    var out, e' := Process(x, req), Handle(e, req);
    ProcessTold(x, reqs, req);
    forall i | 0 <= i < |e'.resps| ensures Told(reqs + [req], e'.resps[i]) {
      if i < |e.resps| {
        ToldLater(reqs, req, e.resps[i]);
      } else {
        assert e'.resps[i] == out.resps[i - |e.resps|];
      }
    }
    forall t | 0 <= t < n ensures BookKnown(reqs + [req], e'.books[t], t) {
      if t != req.ticker {
        ElsewhereKnown(reqs, req, e.books[t], t);
      }
    }
  }

  lemma {:induction false} ElsewhereKnown(reqs: seq<Request>, req: Request, x: Exchange, t: nat)
    requires BookKnown(reqs, x, t) && req.ticker != t
    ensures BookKnown(reqs + [req], x, t)
  {
    NewsMore(reqs, req, t);
    assert NewsOn(reqs + [req], t) == NewsOn(reqs, t);
  }

  lemma {:induction false} StartTold(n: nat)
    ensures AllTold(n, [], Engine(seq(n, _ => EMPTY), [], []))
  {
    forall t | 0 <= t < n ensures BookKnown([], EMPTY, t) {
      assert NewsOn([], t) == [];
    }
  }

  /**
    Attribution over whole runs: every response is about the request behind its market order id, and so is every order
    that rests; ids number the new orders of their ticker; a rejection answers a cancel that was sent.
  */
  lemma {:induction false} ResponsesAttributed(n: nat, reqs: seq<Request>)
    requires LegalRun(n, reqs) && |reqs| < TWO_32
    ensures AllTold(n, reqs, Run(n, reqs))
  {
    hide AllTold, Inv, Handle;
    if reqs == [] {
      assert Run(n, reqs) == Engine(seq(n, _ => EMPTY), [], []);
      StartTold(n);
    } else {
      var before, req := reqs[..|reqs| - 1], reqs[|reqs| - 1];
      ResponsesAttributed(n, before);
      FeedAgrees(n, before);
      assert before + [req] == reqs;
      HandleTold(n, before, Run(n, before), req);
    }
  }
}
