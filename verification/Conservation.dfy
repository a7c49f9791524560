/**
  Quantity is conserved: what the private responses say about an order always adds up to what rests
  in the book, and every share bought is a share sold.
*/
module Conservation {
  import opened Types
  import opened PriceTime
  import opened Matching
  import opened Feed

  /** The quantities counted over a history of responses; `Balance` and `Flow` are differences of the others. */
  datatype Tally =
    | AcceptedQty(t: nat, id: nat)
    | ExecutedQty(t: nat, id: nat)
    | CanceledQty(t: nat, id: nat)
    | Balance(t: nat, id: nat)
    | Traded(t: nat, side: Side)
    | Flow(t: nat)

  predicate About(r: Response, t: nat, id: nat) {
    !r.CancelRejected? && r.ticker == t && r.moid == id
  }

  function Count(w: Tally, r: Response): int {
    match w
    case AcceptedQty(t, id) => if r.Accepted? && About(r, t, id) then r.leaves else 0
    case ExecutedQty(t, id) => if r.Filled? && About(r, t, id) then r.exec else 0
    case CanceledQty(t, id) => if r.Canceled? && About(r, t, id) then r.leaves else 0
    case Balance(t, id) =>
      if !About(r, t, id) then 0
      else if r.Accepted? then r.leaves else if r.Filled? then -(r.exec as int) else -(r.leaves as int)
    case Traded(t, side) => if r.Filled? && r.ticker == t && r.side == side then r.exec else 0
    case Flow(t) => if r.Filled? && r.ticker == t then if r.side.Buy? then r.exec else -(r.exec as int) else 0
  }

  function Total(rs: seq<Response>, w: Tally): int {
    if rs == [] then 0 else Total(rs[..|rs| - 1], w) + Count(w, rs[|rs| - 1])
  }

  function Resting(s: seq<Order<Owner>>, id: nat): int {
    if s == [] then 0 else (if s[0].id == id then s[0].qty else 0) + Resting(s[1..], id)
  }

  function RestingIn(b: Book<Owner>, id: nat): int {
    Resting(b.bids, id) + Resting(b.asks, id)
  }

  lemma {:induction false} TotalConcat(rs: seq<Response>, ss: seq<Response>, w: Tally)
    ensures Total(rs + ss, w) == Total(rs, w) + Total(ss, w)
  {
    if ss == [] {
      assert rs + ss == rs;
    } else {
      var ts := rs + ss;
      assert ts[..|ts| - 1] == rs + ss[..|ss| - 1];
      TotalConcat(rs, ss[..|ss| - 1], w);
    }
  }

  lemma {:induction false} TotalOne(r: Response, w: Tally)
    ensures Total([r], w) == Count(w, r)
  {
  }

  lemma {:induction false} TotalTwo(r: Response, q: Response, w: Tally)
    ensures Total([r, q], w) == Count(w, r) + Count(w, q)
  {
    TotalOne(r, w);
    assert [r, q][..1] == [r];
  }

  lemma {:induction false} TotalBalance(rs: seq<Response>, t: nat, id: nat)
    ensures Total(rs, Balance(t, id))
         == Total(rs, AcceptedQty(t, id)) - Total(rs, ExecutedQty(t, id)) - Total(rs, CanceledQty(t, id))
  {
    if rs != [] {
      TotalBalance(rs[..|rs| - 1], t, id);
    }
  }

  lemma {:induction false} TotalFlow(rs: seq<Response>, t: nat)
    ensures Total(rs, Flow(t)) == Total(rs, Traded(t, Buy)) - Total(rs, Traded(t, Sell))
  {
    if rs != [] {
      TotalFlow(rs[..|rs| - 1], t);
    }
  }

  lemma {:induction false} RestingConcat(a: seq<Order<Owner>>, b: seq<Order<Owner>>, id: nat)
    ensures Resting(a + b, id) == Resting(a, id) + Resting(b, id)
  {
    if a == [] {
      assert a + b == b;
    } else {
      assert (a + b)[1..] == a[1..] + b;
      RestingConcat(a[1..], b, id);
    }
  }

  lemma {:induction false} RestingInsert(s: seq<Order<Owner>>, o: Order<Owner>, id: nat)
    ensures Resting(Insert(s, o), id) == Resting(s, id) + if o.id == id then o.qty else 0
  {
    var k := Rank(s, o.side, o.price);
    RestingConcat(s[..k] + [o], s[k..], id);
    RestingConcat(s[..k], [o], id);
    RestingConcat(s[..k], s[k..], id);
    assert s == s[..k] + s[k..];
  }

  lemma {:induction false} RestingWithout(s: seq<Order<Owner>>, k: nat, id: nat)
    requires k < |s|
    ensures Resting(Without(s, k), id) == Resting(s, id) - if s[k].id == id then s[k].qty else 0
  {
    RestingConcat(s[..k], s[k + 1..], id);
    RestingConcat(s[..k], s[k..], id);
    assert s == s[..k] + s[k..] && s[k..] == [s[k]] + s[k..][1..] && s[k..][1..] == s[k + 1..];
  }

  lemma {:induction false} MatchHeadConserves(inc: Incoming, opp: seq<Order<Owner>>, leaves: nat, id: nat, t: nat)
    requires CanMatch(inc, opp, leaves) && opp[0].side == Opposite(inc.side)
    ensures var m := MatchHead(inc, opp, leaves);
            && Total(m.resps, Balance(inc.ticker, id))
               == (if inc.fillId == id then m.leaves - leaves else 0) + Resting(m.opp, id) - Resting(opp, id)
            && Total(m.resps, Flow(t)) == 0
  {
    var m := MatchHead(inc, opp, leaves);
    TotalTwo(m.resps[0], m.resps[1], Balance(inc.ticker, id));
    TotalTwo(m.resps[0], m.resps[1], Flow(t));
    assert opp == [opp[0]] + opp[1..];
    if leaves < opp[0].qty {
      assert m.opp == [m.opp[0]] + opp[1..];
    }
  }

  /** Through a whole matching loop, both parties of every fill are debited the same quantity. */
  lemma {:induction false} MatchAllConserves(inc: Incoming, opp: seq<Order<Owner>>, leaves: nat, id: nat, t: nat)
    requires forall i | 0 <= i < |opp| :: opp[i].side == Opposite(inc.side)
    ensures var m := MatchAll(inc, opp, leaves);
            && Total(m.resps, Balance(inc.ticker, id))
               == (if inc.fillId == id then m.leaves - leaves else 0) + Resting(m.opp, id) - Resting(opp, id)
            && Total(m.resps, Flow(t)) == 0
    decreases |opp| + leaves
  {
    if CanMatch(inc, opp, leaves) {
      var m := MatchHead(inc, opp, leaves);
      MatchHeadConserves(inc, opp, leaves, id, t);
      var rest := MatchAll(inc, m.opp, m.leaves);
      assert forall i | 0 <= i < |m.opp| :: m.opp[i].side == Opposite(inc.side);
      MatchAllConserves(inc, m.opp, m.leaves, id, t);
      TotalConcat(m.resps, rest.resps, Balance(inc.ticker, id));
      TotalConcat(m.resps, rest.resps, Flow(t));
    }
  }

  /** How an incoming order changes what rests, apart from what its fills consumed. */
  lemma {:induction false} AddResting(
      x: Exchange, client: nat, coid: nat, ticker: nat, side: Side, price: int, qty: nat, id: nat)
    ensures var out := AddOrder(x, client, coid, ticker, side, price, qty);
            var opp := Half(x.book, Opposite(side));
            var m := MatchAll(Incoming(ticker, Owner(client, coid), x.nextId % TWO_32, side, price), opp, qty);
            RestingIn(out.exchange.book, id) - RestingIn(x.book, id)
            == Resting(m.opp, id) - Resting(opp, id) + if id == x.nextId then m.leaves else 0
  {
    var opp := Half(x.book, Opposite(side));
    var own := Half(x.book, side);
    var m := MatchAll(Incoming(ticker, Owner(client, coid), x.nextId % TWO_32, side, price), opp, qty);
    if m.leaves > 0 {
      RestingInsert(own, Order(Owner(client, coid), x.nextId, side, price, m.leaves, NextPriority(own, side, price)),
          id);
    }
  }

  lemma {:induction false} AddTotal(
      x: Exchange, client: nat, coid: nat, ticker: nat, side: Side, price: int, qty: nat, w: Tally)
    ensures var m := MatchAll(Incoming(ticker, Owner(client, coid), x.nextId % TWO_32, side, price),
                              Half(x.book, Opposite(side)), qty);
            Total(AddOrder(x, client, coid, ticker, side, price, qty).resps, w)
            == Count(w, Accepted(client, ticker, coid, x.nextId, side, price, qty)) + Total(m.resps, w)
  {
    var m := MatchAll(Incoming(ticker, Owner(client, coid), x.nextId % TWO_32, side, price),
                      Half(x.book, Opposite(side)), qty);
    var acc := Accepted(client, ticker, coid, x.nextId, side, price, qty);
    TotalOne(acc, w);
    TotalConcat([acc], m.resps, w);
  }

  lemma {:induction false} AddConserves(
      x: Exchange, client: nat, coid: nat, ticker: nat, side: Side, price: int, qty: nat, id: nat, t: nat)
    requires x.nextId < TWO_32
    requires var opp := Half(x.book, Opposite(side)); forall i | 0 <= i < |opp| :: opp[i].side == Opposite(side)
    ensures var out := AddOrder(x, client, coid, ticker, side, price, qty);
            && Total(out.resps, Balance(ticker, id)) == RestingIn(out.exchange.book, id) - RestingIn(x.book, id)
            && Total(out.resps, Flow(t)) == 0
  {
    var inc := Incoming(ticker, Owner(client, coid), x.nextId % TWO_32, side, price);
    var opp := Half(x.book, Opposite(side));
    assert inc.fillId == x.nextId;
    MatchAllConserves(inc, opp, qty, id, t);
    AddTotal(x, client, coid, ticker, side, price, qty, Balance(ticker, id));
    AddTotal(x, client, coid, ticker, side, price, qty, Flow(t));
    AddResting(x, client, coid, ticker, side, price, qty, id);
  }

  lemma {:induction false} RemoveConserves(x: Exchange, side: Side, k: nat, ticker: nat, id: nat, t: nat)
    requires k < |Half(x.book, side)|
    ensures var out := RemoveAt(x, side, k, ticker);
            && Total(out.resps, Balance(ticker, id)) == RestingIn(out.exchange.book, id) - RestingIn(x.book, id)
            && Total(out.resps, Flow(t)) == 0
  {
    var out := RemoveAt(x, side, k, ticker);
    TotalOne(out.resps[0], Balance(ticker, id));
    TotalOne(out.resps[0], Flow(t));
    RestingWithout(Half(x.book, side), k, id);
  }

  lemma {:induction false} ProcessConserves(x: Exchange, req: Request, id: nat, t: nat)
    requires Inv(x) && x.nextId < TWO_32
    ensures var out := Process(x, req);
            && Total(out.resps, Balance(req.ticker, id)) == RestingIn(out.exchange.book, id) - RestingIn(x.book, id)
            && Total(out.resps, Flow(t)) == 0
  {
    match req
    case New(client, coid, ticker, side, price, qty) =>
      var opp := Half(x.book, Opposite(side));
      assert forall i | 0 <= i < |opp| :: OrderOk(opp[i], Opposite(side), x.nextId);
      AddConserves(x, client, coid, ticker, side, price, qty, id, t);
    case CancelOrder(client, coid, ticker) =>
      var i := FindOwner(x.book.bids, Owner(client, coid));
      var j := FindOwner(x.book.asks, Owner(client, coid));
      if i < |x.book.bids| {
        RemoveConserves(x, Buy, i, ticker, id, t);
      } else if j < |x.book.asks| {
        RemoveConserves(x, Sell, j, ticker, id, t);
      } else {
        TotalOne(CancelRejected(client, ticker, coid), Balance(ticker, id));
        TotalOne(CancelRejected(client, ticker, coid), Flow(t));
      }
  }

  /** Responses of a request are about its own ticker. */
  lemma {:induction false} OtherTickerMatch(inc: Incoming, opp: seq<Order<Owner>>, leaves: nat, t: nat, id: nat)
    requires t != inc.ticker
    ensures Total(MatchAll(inc, opp, leaves).resps, Balance(t, id)) == 0
    decreases |opp| + leaves
  {
    if CanMatch(inc, opp, leaves) {
      var m := MatchHead(inc, opp, leaves);
      OtherTickerMatch(inc, m.opp, m.leaves, t, id);
      TotalTwo(m.resps[0], m.resps[1], Balance(t, id));
      TotalConcat(m.resps, MatchAll(inc, m.opp, m.leaves).resps, Balance(t, id));
    }
  }

  lemma {:induction false} OtherTicker(x: Exchange, req: Request, t: nat, id: nat)
    requires t != req.ticker
    ensures Total(Process(x, req).resps, Balance(t, id)) == 0
  {
    match req
    case New(client, coid, ticker, side, price, qty) =>
      var inc := Incoming(ticker, Owner(client, coid), x.nextId % TWO_32, side, price);
      var opp := Half(x.book, Opposite(side));
      OtherTickerMatch(inc, opp, qty, t, id);
      var acc := Accepted(client, ticker, coid, x.nextId, side, price, qty);
      TotalOne(acc, Balance(t, id));
      TotalConcat([acc], MatchAll(inc, opp, qty).resps, Balance(t, id));
    case CancelOrder(client, coid, ticker) =>
      TotalOne(Process(x, req).resps[0], Balance(t, id));
  }

  lemma {:induction false} HandleConserves(e: Engine, req: Request, t: nat, id: nat)
    requires req.ticker < |e.books| && t < |e.books|
    requires Inv(e.books[req.ticker]) && e.books[req.ticker].nextId < TWO_32
    requires Total(e.resps, Balance(t, id)) == RestingIn(e.books[t].book, id)
    requires Total(e.resps, Flow(t)) == 0
    ensures var e' := Handle(e, req);
            && Total(e'.resps, Balance(t, id)) == RestingIn(e'.books[t].book, id)
            && Total(e'.resps, Flow(t)) == 0
            && |e'.books| == |e.books| && forall s | 0 <= s < |e.books| :: e'.books[s].nextId <= e.books[s].nextId + 1
  {
    var out := Process(e.books[req.ticker], req);
    ProcessConserves(e.books[req.ticker], req, id, t);
    TotalConcat(e.resps, out.resps, Balance(t, id));
    TotalConcat(e.resps, out.resps, Flow(t));
    if t != req.ticker {
      OtherTicker(e.books[req.ticker], req, t, id);
    }
  }

  lemma {:induction false} NothingBalanced(t: nat, id: nat)
    ensures Total([], Balance(t, id)) == RestingIn(EMPTY.book, id) == 0 && Total([], Flow(t)) == 0
  {
  }

  lemma {:induction false} Balanced(n: nat, reqs: seq<Request>, t: nat, id: nat)
    requires LegalRun(n, reqs) && t < n && |reqs| < TWO_32
    ensures Total(Run(n, reqs).resps, Balance(t, id)) == RestingIn(Run(n, reqs).books[t].book, id)
    ensures Total(Run(n, reqs).resps, Flow(t)) == 0
    ensures forall s | 0 <= s < n :: Run(n, reqs).books[s].nextId <= 1 + |reqs|
  {
    hide Handle, Total, RestingIn, Inv;
    if reqs == [] {
      assert Run(n, reqs) == Engine(seq(n, _ => EMPTY), [], []);
      NothingBalanced(t, id);
    } else {
      var before := reqs[..|reqs| - 1];
      Balanced(n, before, t, id);
      FeedAgrees(n, before);
      HandleConserves(Run(n, before), reqs[|reqs| - 1], t, id);
    }
  }

  /**
    Conservation over whole runs: for every market order id, accepted quantity equals executed plus
    resting plus cancelled quantity; and on every ticker as much was bought as was sold.
  */
  lemma {:induction false} QuantityConserved(n: nat, reqs: seq<Request>, t: nat, id: nat)
    requires LegalRun(n, reqs) && t < n && |reqs| < TWO_32
    ensures var e := Run(n, reqs);
            && Total(e.resps, AcceptedQty(t, id))
               == Total(e.resps, ExecutedQty(t, id)) + RestingIn(e.books[t].book, id)
                  + Total(e.resps, CanceledQty(t, id))
            && Total(e.resps, Traded(t, Buy)) == Total(e.resps, Traded(t, Sell))
  {
    Balanced(n, reqs, t, id);
    TotalBalance(Run(n, reqs).resps, t, id);
    TotalFlow(Run(n, reqs).resps, t);
  }
}
