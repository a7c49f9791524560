/**
  The history of every order as its owner is told it: an ACCEPTED first, then fills each of which takes its
  executed quantity off the leaves last reported, then perhaps a CANCELED that repeats them. At every moment the
  last reported leaves are what rests in the book.
*/
module Leaves {
  import opened Types
  import opened PriceTime
  import opened Matching
  import opened Feed
  import opened Conservation

  /** The leaves last reported for a market order, starting from `l`; a CANCELED leaves nothing. */
  function Reported(l: Option<nat>, rs: seq<Response>, t: nat, id: nat): Option<nat>
    decreases |rs|
  {
    if rs == [] then l else Reported(Told(l, rs[0], t, id), rs[1..], t, id)
  }

  function Told(l: Option<nat>, r: Response, t: nat, id: nat): Option<nat> {
    if !About(r, t, id) then l else if r.Canceled? then Some(0) else Some(r.leaves)
  }

  /** The response continues what was reported before it. */
  predicate Continues(l: Option<nat>, r: Response, t: nat, id: nat) {
    About(r, t, id) ==>
      match r
      case Accepted(_, _, _, _, _, _, _) => l == None
      case Filled(_, _, _, _, _, _, exec, leaves) => exec > 0 && l == Some(exec + leaves)
      case Canceled(_, _, _, _, _, _, leaves) => leaves > 0 && l == Some(leaves)
  }

  predicate Chain(l: Option<nat>, rs: seq<Response>, t: nat, id: nat)
    decreases |rs|
  {
    rs == [] || (Continues(l, rs[0], t, id) && Chain(Told(l, rs[0], t, id), rs[1..], t, id))
  }

  lemma {:induction false} ChainConcat(l: Option<nat>, rs: seq<Response>, ss: seq<Response>, t: nat, id: nat)
    ensures Reported(l, rs + ss, t, id) == Reported(Reported(l, rs, t, id), ss, t, id)
    ensures Chain(l, rs + ss, t, id) <==> Chain(l, rs, t, id) && Chain(Reported(l, rs, t, id), ss, t, id)
    decreases |rs|
  {
    if rs == [] {
      assert rs + ss == ss;
    } else {
      assert (rs + ss)[1..] == rs[1..] + ss;
      ChainConcat(Told(l, rs[0], t, id), rs[1..], ss, t, id);
    }
  }

  lemma {:induction false} ChainOne(l: Option<nat>, r: Response, t: nat, id: nat)
    ensures Reported(l, [r], t, id) == Told(l, r, t, id)
    ensures Chain(l, [r], t, id) <==> Continues(l, r, t, id)
  {
    assert [r][1..] == [];
    assert Reported(Told(l, r, t, id), [], t, id) == Told(l, r, t, id);
    assert Chain(Told(l, r, t, id), [], t, id);
  }

  lemma {:induction false} ChainTwo(l: Option<nat>, r: Response, q: Response, t: nat, id: nat)
    ensures Reported(l, [r, q], t, id) == Told(Told(l, r, t, id), q, t, id)
    ensures Chain(l, [r, q], t, id) <==> Continues(l, r, t, id) && Continues(Told(l, r, t, id), q, t, id)
  {
    assert [r, q][1..] == [q];
    ChainOne(Told(l, r, t, id), q, t, id);
  }

  /** What should have been reported last, given what rests; nothing is known of an order that is not there. */
  predicate Says(l: Option<nat>, resting: int) {
    resting > 0 ==> l == Some(resting)
  }

  // ---------------------------------------------------------------- one matching loop

  /** Ids on a side are distinct, so at most one order counts for an id. */
  lemma {:induction false} RestingAt(side: Side, s: seq<Order<Owner>>, nextId: nat, k: nat)
    requires HalfOk(side, s, nextId) && k < |s|
    ensures Resting(s, s[k].id) == s[k].qty
  {
    if k > 0 {
      assert PairOk(s[0], s[k]);
      TailOk(side, s, nextId);
      RestingAt(side, s[1..], nextId, k - 1);
    } else {
      forall i | 1 <= i < |s| ensures s[i].id != s[0].id {
        assert PairOk(s[0], s[i]);
      }
      RestingNone(s[1..], s[0].id);
    }
  }

  lemma {:induction false} RestingNone(s: seq<Order<Owner>>, id: nat)
    requires forall i | 0 <= i < |s| :: s[i].id != id
    ensures Resting(s, id) == 0
  {
    if s != [] {
      RestingNone(s[1..], id);
    }
  }

  lemma {:induction false} TailOk(side: Side, s: seq<Order<Owner>>, nextId: nat)
    requires HalfOk(side, s, nextId) && s != []
    ensures HalfOk(side, s[1..], nextId)
  {
    forall i, j | 0 <= i < j < |s[1..]| ensures PairOk(s[1..][i], s[1..][j]) {
      assert PairOk(s[i + 1], s[j + 1]);
    }
    forall i | 0 <= i < |s[1..]| ensures OrderOk(s[1..][i], side, nextId) {
      assert OrderOk(s[i + 1], side, nextId);
    }
  }

  /** Before a match: the incoming order's leaves are `leaves`, any other order's are what rests. */
  ghost predicate Known(inc: Incoming, opp: seq<Order<Owner>>, leaves: nat, id: nat, l: Option<nat>) {
    if id == inc.fillId then l == Some(leaves) && Resting(opp, id) == 0 else Says(l, Resting(opp, id))
  }

  /** After it: an order that took part was told what it has left, and nobody else was told anything. */
  ghost predicate ToldLeft(
      inc: Incoming, opp: seq<Order<Owner>>, m: Matched, id: nat, l: Option<nat>, l': Option<nat>) {
    if id == inc.fillId then l' == Some(m.leaves) && Resting(m.opp, id) == 0
    else if Resting(opp, id) > 0 then l' == Some(Resting(m.opp, id))
    else l' == l && Resting(m.opp, id) == 0
  }

  lemma {:induction false} MatchHeadChain(
      inc: Incoming, opp: seq<Order<Owner>>, leaves: nat, id: nat, l: Option<nat>, nextId: nat)
    requires HalfOk(Opposite(inc.side), opp, nextId) && CanMatch(inc, opp, leaves) && inc.fillId >= nextId
    requires Known(inc, opp, leaves, id, l)
    ensures var m := MatchHead(inc, opp, leaves);
            && Chain(l, m.resps, inc.ticker, id)
            && ToldLeft(inc, opp, m, id, l, Reported(l, m.resps, inc.ticker, id))
  {
    var m := MatchHead(inc, opp, leaves);
    var h := opp[0];
    assert OrderOk(h, Opposite(inc.side), nextId);
    ChainTwo(l, m.resps[0], m.resps[1], inc.ticker, id);
    RestingAt(Opposite(inc.side), opp, nextId, 0);
    assert Resting(opp, id) == (if h.id == id then h.qty else 0) + Resting(opp[1..], id);
    assert leaves < h.qty ==> m.opp == [m.opp[0]] + opp[1..] && m.opp[1..] == opp[1..];
    assert leaves < h.qty ==> Resting(m.opp, id) == (if h.id == id then h.qty - leaves else 0) + Resting(opp[1..], id);
    RestingPositive(opp[1..], id);
  }

  lemma {:induction false} RestingPositive(s: seq<Order<Owner>>, id: nat)
    ensures Resting(s, id) >= 0
  {
    if s != [] {
      RestingPositive(s[1..], id);
    }
  }

  /** Through a whole matching loop the responses about any order form a chain that ends at what rests. */
  lemma {:induction false} MatchAllChain(
      inc: Incoming, opp: seq<Order<Owner>>, leaves: nat, id: nat, l: Option<nat>, nextId: nat)
    requires HalfOk(Opposite(inc.side), opp, nextId) && inc.fillId >= nextId
    requires Known(inc, opp, leaves, id, l)
    ensures var m := MatchAll(inc, opp, leaves);
            && Chain(l, m.resps, inc.ticker, id)
            && ToldLeft(inc, opp, m, id, l, Reported(l, m.resps, inc.ticker, id))
    decreases |opp| + leaves
  {
    RestingPositive(opp, id);
    if CanMatch(inc, opp, leaves) {
      MatchHeadChain(inc, opp, leaves, id, l, nextId);
      assert forall i | 0 <= i < |opp| :: OrderOk(opp[i], Opposite(inc.side), nextId);
      MatchHeadRest(inc, opp, leaves);
      var m := MatchHead(inc, opp, leaves);
      RestHalfOk(Opposite(inc.side), opp, nextId, m.opp, |opp| - |m.opp|);
      RestingPositive(m.opp, id);
      hide MatchHead, CanMatch, HalfOk, Rest, Chain, Reported, Resting;
      var l' := Reported(l, m.resps, inc.ticker, id);
      MatchAllChain(inc, m.opp, m.leaves, id, l', nextId);
      ChainConcat(l, m.resps, MatchAll(inc, m.opp, m.leaves).resps, inc.ticker, id);
    }
  }

  // ---------------------------------------------------------------- one request

  /** What has been reported agrees with the book: an id not yet handed out has no history. */
  ghost predicate InStep(x: Exchange, id: nat, l: Option<nat>) {
    match l
    case None => RestingIn(x.book, id) == 0
    case Some(leaves) => RestingIn(x.book, id) == leaves && id < x.nextId
  }

  lemma {:induction false} NotYet(x: Exchange, id: nat)
    requires Inv(x) && id >= x.nextId
    ensures Resting(x.book.bids, id) == 0 && Resting(x.book.asks, id) == 0
  {
    forall i | 0 <= i < |x.book.bids| ensures x.book.bids[i].id != id {
      assert OrderOk(x.book.bids[i], Buy, x.nextId);
    }
    forall i | 0 <= i < |x.book.asks| ensures x.book.asks[i].id != id {
      assert OrderOk(x.book.asks[i], Sell, x.nextId);
    }
    RestingNone(x.book.bids, id);
    RestingNone(x.book.asks, id);
  }

  /** An id rests on one side at most. */
  lemma {:induction false} OneSide(x: Exchange, side: Side, id: nat)
    requires Inv(x) && Resting(Half(x.book, side), id) > 0
    ensures Resting(Half(x.book, Opposite(side)), id) == 0
  {
    var own, opp := Half(x.book, side), Half(x.book, Opposite(side));
    var k := Holder(own, id);
    forall i | 0 <= i < |opp| ensures opp[i].id != id {
      assert if side.Buy? then Apart(own[k], opp[i]) else Apart(opp[i], own[k]);
    }
    RestingNone(opp, id);
  }

  lemma {:induction false} Holder(s: seq<Order<Owner>>, id: nat) returns (k: nat)
    requires Resting(s, id) > 0
    ensures k < |s| && s[k].id == id
  {
    if s[0].id == id {
      k := 0;
    } else {
      k := Holder(s[1..], id);
      k := k + 1;
    }
  }

  lemma {:induction false} AddChain(x: Exchange, req: Request, id: nat, l: Option<nat>)
    requires Inv(x) && req.New? && x.nextId < TWO_32 && InStep(x, id, l)
    ensures var out := Process(x, req);
            && Chain(l, out.resps, req.ticker, id)
            && InStep(out.exchange, id, Reported(l, out.resps, req.ticker, id))
  {
    hide Chain, Reported, MatchAll, Resting;
    var inc := Incoming(req.ticker, Owner(req.client, req.coid), x.nextId % TWO_32, req.side, req.price);
    var own, opp := Half(x.book, req.side), Half(x.book, Opposite(req.side));
    var acc := Accepted(req.client, req.ticker, req.coid, x.nextId, req.side, req.price, req.qty);
    var m := MatchAll(inc, opp, req.qty);
    var l' := Told(l, acc, req.ticker, id);
    assert inc.fillId == x.nextId;
    RestingPositive(own, id);
    RestingPositive(opp, id);
    if id >= x.nextId {
      NotYet(x, id);
    }
    if Resting(opp, id) > 0 {
      OneSide(x, Opposite(req.side), id);
    }
    MatchAllChain(inc, opp, req.qty, id, l', x.nextId);
    AddResting(x, req.client, req.coid, req.ticker, req.side, req.price, req.qty, id);
    ChainOne(l, acc, req.ticker, id);
    ChainConcat(l, [acc], m.resps, req.ticker, id);
    hide Inv;
  }

  lemma {:induction false} RemoveChain(x: Exchange, side: Side, k: nat, ticker: nat, id: nat, l: Option<nat>)
    requires Inv(x) && k < |Half(x.book, side)| && InStep(x, id, l)
    ensures var out := RemoveAt(x, side, k, ticker);
            Chain(l, out.resps, ticker, id) && InStep(out.exchange, id, Reported(l, out.resps, ticker, id))
  {
    var s := Half(x.book, side);
    var out := RemoveAt(x, side, k, ticker);
    assert OrderOk(s[k], side, x.nextId);
    ChainOne(l, out.resps[0], ticker, id);
    RestingWithout(s, k, id);
    if s[k].id == id {
      RestingAt(side, s, x.nextId, k);
      OneSide(x, side, id);
    }
  }

  lemma {:induction false} ProcessChain(x: Exchange, req: Request, id: nat, l: Option<nat>)
    requires Inv(x) && x.nextId < TWO_32 && InStep(x, id, l)
    ensures var out := Process(x, req);
            && Chain(l, out.resps, req.ticker, id)
            && InStep(out.exchange, id, Reported(l, out.resps, req.ticker, id))
  {
    hide Inv, InStep, Chain, Reported;
    match req
    case New(client, coid, ticker, side, price, qty) =>
      AddChain(x, req, id, l);
    case CancelOrder(client, coid, ticker) =>
      var i := FindOwner(x.book.bids, Owner(client, coid));
      var j := FindOwner(x.book.asks, Owner(client, coid));
      if i < |x.book.bids| {
        RemoveChain(x, Buy, i, ticker, id, l);
      } else if j < |x.book.asks| {
        RemoveChain(x, Sell, j, ticker, id, l);
      } else {
        ChainOne(l, CancelRejected(client, ticker, coid), ticker, id);
      }
  }

  // ---------------------------------------------------------------- whole runs

  lemma {:induction false} MatchElsewhere(
      inc: Incoming, opp: seq<Order<Owner>>, leaves: nat, t: nat, id: nat, l: Option<nat>)
    requires t != inc.ticker
    ensures var rs := MatchAll(inc, opp, leaves).resps; Chain(l, rs, t, id) && Reported(l, rs, t, id) == l
    decreases |opp| + leaves
  {
    if CanMatch(inc, opp, leaves) {
      var m := MatchHead(inc, opp, leaves);
      assert |m.opp| + m.leaves < |opp| + leaves;
      ChainTwo(l, m.resps[0], m.resps[1], t, id);
      MatchElsewhere(inc, m.opp, m.leaves, t, id, l);
      ChainConcat(l, m.resps, MatchAll(inc, m.opp, m.leaves).resps, t, id);
    }
  }

  lemma {:induction false} ProcessElsewhere(x: Exchange, req: Request, t: nat, id: nat, l: Option<nat>)
    requires t != req.ticker
    ensures var rs := Process(x, req).resps; Chain(l, rs, t, id) && Reported(l, rs, t, id) == l
  {
    match req
    case New(client, coid, ticker, side, price, qty) =>
      var inc := Incoming(ticker, Owner(client, coid), x.nextId % TWO_32, side, price);
      var opp := Half(x.book, Opposite(side));
      var acc := Accepted(client, ticker, coid, x.nextId, side, price, qty);
      MatchElsewhere(inc, opp, qty, t, id, l);
      ChainOne(l, acc, t, id);
      ChainConcat(l, [acc], MatchAll(inc, opp, qty).resps, t, id);
    case CancelOrder(client, coid, ticker) =>
      ChainOne(l, Process(x, req).resps[0], t, id);
  }

  lemma {:induction false} HandleChain(e: Engine, req: Request, t: nat, id: nat)
    requires req.ticker < |e.books| && t < |e.books| && Inv(e.books[req.ticker]) && e.books[req.ticker].nextId < TWO_32
    requires Chain(None, e.resps, t, id) && InStep(e.books[t], id, Reported(None, e.resps, t, id))
    ensures var e' := Handle(e, req);
            Chain(None, e'.resps, t, id) && InStep(e'.books[t], id, Reported(None, e'.resps, t, id))
  {
    hide Inv, InStep, Chain, Reported, Process;
    var l := Reported(None, e.resps, t, id);
    ChainConcat(None, e.resps, Process(e.books[req.ticker], req).resps, t, id);
    if t == req.ticker {
      ProcessChain(e.books[t], req, id, l);
    } else {
      ProcessElsewhere(e.books[req.ticker], req, t, id, l);
    }
  }

  /**
    For every order of every run: ACCEPTED comes first and once, each FILLED executes something and reports the
    previous leaves minus that, a CANCELED repeats the previous leaves, nothing follows the last of them, and the
    leaves reported last are exactly what rests.
  */
  lemma {:induction false} LeavesChained(n: nat, reqs: seq<Request>, t: nat, id: nat)
    requires LegalRun(n, reqs) && t < n && |reqs| < TWO_32
    ensures var e := Run(n, reqs);
            Chain(None, e.resps, t, id) && InStep(e.books[t], id, Reported(None, e.resps, t, id))
  {
    hide Inv, InStep, Chain, Reported, Handle;
    if reqs == [] {
      assert Run(n, reqs) == Engine(seq(n, _ => EMPTY), [], []);
      StartInStep(t, id);
    } else {
      var before := reqs[..|reqs| - 1];
      LeavesChained(n, before, t, id);
      FeedAgrees(n, before);
      Balanced(n, before, t, id);
      HandleChain(Run(n, before), reqs[|reqs| - 1], t, id);
    }
  }

  lemma {:induction false} StartInStep(t: nat, id: nat)
    ensures Chain(None, [], t, id) && InStep(EMPTY, id, Reported(None, [], t, id))
  {
  }
}
