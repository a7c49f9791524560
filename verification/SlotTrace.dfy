/**
  What the exchange's responses mean to one order slot of one client: every response fits the order
  the slot holds, and the drained slot says exactly what rests in the book.
*/
module SlotTraces {
  import opened Types
  import opened PriceTime
  import opened Matching
  import opened OrderManagers

  /** The slot a response is routed to. */
  predicate IsFor(r: Response, me: nat, t: nat, side: Side) {
    !r.CancelRejected? && r.client == me && r.ticker == t && r.side == side
  }

  function Mine(rs: seq<Response>, me: nat, t: nat, side: Side): seq<Response> {
    if rs == [] then []
    else (if IsFor(rs[0], me, t, side) then [rs[0]] else []) + Mine(rs[1..], me, t, side)
  }

  /** The slot after all these responses. */
  function Drain(o: OMOrder, rs: seq<Response>): OMOrder
    decreases |rs|
  {
    if rs == [] then o else Drain(Updated(o, rs[0]), rs[1..])
  }

  predicate Working(o: OMOrder) {
    o.state.Live? || o.state.PendingCancel?
  }

  /** The response is about the order now in the slot, and continues its quantities. */
  predicate Fits(o: OMOrder, r: Response) {
    match r
    case Accepted(_, _, coid, _, _, _, leaves) => o.state.PendingNew? && coid == o.coid && leaves == o.qty
    case Filled(_, _, coid, _, _, _, exec, leaves) => Working(o) && coid == o.coid && exec > 0 && exec + leaves == o.qty
    case Canceled(_, _, coid, _, _, _, leaves) => o.state.PendingCancel? && coid == o.coid && leaves == o.qty > 0
    case CancelRejected(_, _, _) => false
  }

  predicate AllFit(o: OMOrder, rs: seq<Response>)
    decreases |rs|
  {
    rs == [] || (Fits(o, rs[0]) && AllFit(Updated(o, rs[0]), rs[1..]))
  }

  lemma {:induction false} MineConcat(rs: seq<Response>, ss: seq<Response>, me: nat, t: nat, side: Side)
    ensures Mine(rs + ss, me, t, side) == Mine(rs, me, t, side) + Mine(ss, me, t, side)
  {
    if rs == [] {
      assert rs + ss == ss;
    } else {
      assert (rs + ss)[1..] == rs[1..] + ss;
      MineConcat(rs[1..], ss, me, t, side);
    }
  }

  lemma {:induction false} FitConcat(o: OMOrder, rs: seq<Response>, ss: seq<Response>)
    ensures Drain(o, rs + ss) == Drain(Drain(o, rs), ss)
    ensures AllFit(o, rs + ss) <==> AllFit(o, rs) && AllFit(Drain(o, rs), ss)
    decreases |rs|
  {
    if rs == [] {
      assert rs + ss == ss;
    } else {
      assert (rs + ss)[1..] == rs[1..] + ss;
      FitConcat(Updated(o, rs[0]), rs[1..], ss);
    }
  }

  lemma {:induction false} MineOne(r: Response, me: nat, t: nat, side: Side)
    ensures Mine([r], me, t, side) == if IsFor(r, me, t, side) then [r] else []
  {
  }

  lemma {:induction false} MineTwo(r: Response, q: Response, me: nat, t: nat, side: Side)
    ensures Mine([r, q], me, t, side)
         == (if IsFor(r, me, t, side) then [r] else []) + (if IsFor(q, me, t, side) then [q] else [])
  {
    assert [r, q][1..] == [q];
    MineOne(q, me, t, side);
  }

  lemma {:induction false} FitOne(o: OMOrder, r: Response)
    ensures AllFit(o, [r]) <==> Fits(o, r)
    ensures Drain(o, [r]) == Updated(o, r)
  {
  }

  /** The only order of this client on this side, if any, is `coid` with quantity `qty`. */
  ghost predicate Rests(s: seq<Order<Owner>>, me: nat, coid: nat, qty: nat) {
    && (forall k | 0 <= k < |s| && s[k].owner.client == me :: qty > 0 && s[k].owner.coid == coid && s[k].qty == qty)
    && (qty > 0 ==> exists k :: 0 <= k < |s| && s[k].owner.client == me)
  }

  /** What should rest for a slot whose responses have all arrived. */
  function Leaves(o: OMOrder): nat {
    if Working(o) then o.qty else 0
  }

  ghost predicate Shown(s: seq<Order<Owner>>, me: nat, o: OMOrder) {
    Rests(s, me, o.coid, Leaves(o))
  }

  /** How an order may change under its own fills. */
  predicate Evolves(o: OMOrder, e: OMOrder) {
    && e == o.(qty := e.qty, state := e.state)
    && (e == o
        || (Working(o) && 0 < e.qty < o.qty && e.state == o.state)
        || (Working(o) && o.qty > 0 && e.qty == 0 && e.state.Dead?))
  }

  lemma {:induction false} EvolvesTrans(o: OMOrder, e: OMOrder, f: OMOrder)
    requires Evolves(o, e) && Evolves(e, f)
    ensures Evolves(o, f)
  {
  }

  /** One match, seen by a slot on the passive side. */
  lemma {:induction false} MatchHeadPassive(
      inc: Incoming, opp: seq<Order<Owner>>, leaves: nat, me: nat, o: OMOrder, nextId: nat)
    requires HalfOk(Opposite(inc.side), opp, nextId) && CanMatch(inc, opp, leaves) && Shown(opp, me, o)
    ensures var m := MatchHead(inc, opp, leaves);
            var rs := Mine(m.resps, me, inc.ticker, Opposite(inc.side));
            && AllFit(o, rs) && Evolves(o, Drain(o, rs)) && Shown(m.opp, me, Drain(o, rs))
  {
    var m := MatchHead(inc, opp, leaves);
    var h := opp[0];
    assert OrderOk(h, Opposite(inc.side), nextId);
    var fill := Min(leaves, h.qty);
    var rs := Mine(m.resps, me, inc.ticker, Opposite(inc.side));
    MineTwo(m.resps[0], m.resps[1], me, inc.ticker, Opposite(inc.side));
    if h.owner.client == me {
      FitOne(o, m.resps[1]);
      forall k | 1 <= k < |opp| ensures opp[k].owner.client != me {
        assert PairOk(opp[0], opp[k]);
      }
      if fill < h.qty {
        assert m.opp[0].owner.client == me;
      }
    } else {
      assert rs == [];
      if Leaves(o) > 0 {
        var k :| 0 <= k < |opp| && opp[k].owner.client == me;
        assert m.opp[if fill < h.qty then k else k - 1].owner.client == me;
      }
    }
  }

  /** The whole matching loop, seen by a slot on the passive side. */
  lemma {:induction false} MatchAllPassive(
      inc: Incoming, opp: seq<Order<Owner>>, leaves: nat, me: nat, o: OMOrder, nextId: nat)
    requires HalfOk(Opposite(inc.side), opp, nextId) && Shown(opp, me, o)
    ensures var m := MatchAll(inc, opp, leaves);
            var rs := Mine(m.resps, me, inc.ticker, Opposite(inc.side));
            && AllFit(o, rs) && Evolves(o, Drain(o, rs)) && Shown(m.opp, me, Drain(o, rs))
    decreases |opp| + leaves
  {
    hide MatchHead, Shown, Fits;
    if CanMatch(inc, opp, leaves) {
      assert forall i | 0 <= i < |opp| :: OrderOk(opp[i], Opposite(inc.side), nextId);
      MatchHeadRest(inc, opp, leaves);
      MatchHeadPassive(inc, opp, leaves, me, o, nextId);
      var m := MatchHead(inc, opp, leaves);
      RestHalfOk(Opposite(inc.side), opp, nextId, m.opp, |opp| - |m.opp|);
      var rs := Mine(m.resps, me, inc.ticker, Opposite(inc.side));
      var e := Drain(o, rs);
      hide MatchHead, HalfOk, CanMatch, Shown, Fits, Rest;
      MatchAllPassive(inc, m.opp, m.leaves, me, e, nextId);
      var rest := MatchAll(inc, m.opp, m.leaves);
      MineConcat(m.resps, rest.resps, me, inc.ticker, Opposite(inc.side));
      FitConcat(o, rs, Mine(rest.resps, me, inc.ticker, Opposite(inc.side)));
      EvolvesTrans(o, e, Drain(e, Mine(rest.resps, me, inc.ticker, Opposite(inc.side))));
    }
  }

  /** One match, seen by the slot of the incoming order or by a stranger's slot on its side. */
  lemma {:induction false} MatchHeadActive(inc: Incoming, opp: seq<Order<Owner>>, leaves: nat, me: nat, o: OMOrder)
    requires CanMatch(inc, opp, leaves) && opp[0].side == Opposite(inc.side) && opp[0].qty > 0
    requires inc.owner.client == me ==> inc.owner.coid == o.coid && o.qty == leaves && Working(o)
    ensures var m := MatchHead(inc, opp, leaves);
            var rs := Mine(m.resps, me, inc.ticker, inc.side);
            && AllFit(o, rs) && Evolves(o, Drain(o, rs))
            && (inc.owner.client == me ==> Drain(o, rs).qty == m.leaves)
            && (inc.owner.client != me ==> rs == [])
  {
    var m := MatchHead(inc, opp, leaves);
    MineTwo(m.resps[0], m.resps[1], me, inc.ticker, inc.side);
    FitOne(o, m.resps[0]);
  }

  lemma {:induction false} MatchAllActive(inc: Incoming, opp: seq<Order<Owner>>, leaves: nat, me: nat, o: OMOrder)
    requires forall i | 0 <= i < |opp| :: opp[i].side == Opposite(inc.side) && opp[i].qty > 0
    requires inc.owner.client == me ==> inc.owner.coid == o.coid && o.qty == leaves && (leaves > 0 ==> Working(o))
    ensures var m := MatchAll(inc, opp, leaves);
            var rs := Mine(m.resps, me, inc.ticker, inc.side);
            && AllFit(o, rs) && Evolves(o, Drain(o, rs))
            && (inc.owner.client == me ==> Drain(o, rs).qty == m.leaves)
            && (inc.owner.client != me ==> rs == [])
    decreases |opp| + leaves
  {
    if CanMatch(inc, opp, leaves) {
      MatchHeadActive(inc, opp, leaves, me, o);
      var m := MatchHead(inc, opp, leaves);
      var rs := Mine(m.resps, me, inc.ticker, inc.side);
      var e := Drain(o, rs);
      assert forall i | 0 <= i < |m.opp| :: m.opp[i].side == Opposite(inc.side) && m.opp[i].qty > 0;
      MatchHeadRest(inc, opp, leaves);
      hide MatchHead, CanMatch, Fits, Rest;
      MatchAllActive(inc, m.opp, m.leaves, me, e);
      var rest := MatchAll(inc, m.opp, m.leaves);
      MineConcat(m.resps, rest.resps, me, inc.ticker, inc.side);
      FitConcat(o, rs, Mine(rest.resps, me, inc.ticker, inc.side));
      EvolvesTrans(o, e, Drain(e, Mine(rest.resps, me, inc.ticker, inc.side)));
    }
  }

  // ---------------------------------------------------------------- a whole request

  /** The slot's responses and what rests for it agree after the request. */
  ghost predicate Follows(x: Exchange, req: Request, me: nat, side: Side, o: OMOrder) {
    var out := Process(x, req);
    var rs := Mine(out.resps, me, req.ticker, side);
    AllFit(o, rs) && Shown(Half(out.exchange.book, side), me, Drain(o, rs))
  }

  ghost function Result(x: Exchange, req: Request, me: nat, side: Side, o: OMOrder): OMOrder {
    Drain(o, Mine(Process(x, req).resps, me, req.ticker, side))
  }

  lemma {:induction false} InsertShown(s: seq<Order<Owner>>, ord: Order<Owner>, me: nat, o: OMOrder)
    requires Shown(s, me, o) && ord.owner.client != me
    ensures Shown(Insert(s, ord), me, o)
  {
    var t := Insert(s, ord);
    forall k | 0 <= k < |t| && t[k].owner.client == me
      ensures Leaves(o) > 0 && t[k].owner.coid == o.coid && t[k].qty == Leaves(o)
    {
      InsertMembers(s, ord, t[k]);
    }
    if Leaves(o) > 0 {
      var k :| 0 <= k < |s| && s[k].owner.client == me;
      InsertMembers(s, ord, s[k]);
      var j :| 0 <= j < |t| && t[j] == s[k];
    }
  }

  lemma {:induction false} InsertOwn(s: seq<Order<Owner>>, ord: Order<Owner>, me: nat)
    requires Rests(s, me, ord.owner.coid, 0) && ord.owner.client == me && ord.qty > 0
    ensures Rests(Insert(s, ord), me, ord.owner.coid, ord.qty)
  {
    var t := Insert(s, ord);
    forall k | 0 <= k < |t| && t[k].owner.client == me ensures t[k] == ord {
      InsertMembers(s, ord, t[k]);
    }
    InsertMembers(s, ord, ord);
    var j :| 0 <= j < |t| && t[j] == ord;
  }

  lemma {:induction false} WithoutShown(s: seq<Order<Owner>>, k: nat, me: nat, o: OMOrder)
    requires Shown(s, me, o) && k < |s| && s[k].owner.client != me
    ensures Shown(Without(s, k), me, o)
  {
    var t := Without(s, k);
    assert forall i | 0 <= i < |t| :: t[i] == s[if i < k then i else i + 1];
    if Leaves(o) > 0 {
      var j :| 0 <= j < |s| && s[j].owner.client == me;
      assert t[if j < k then j else j - 1] == s[j];
    }
  }

  lemma {:induction false} HalfFacts(x: Exchange, side: Side)
    requires Inv(x)
    ensures HalfOk(side, Half(x.book, side), x.nextId)
    ensures var s := Half(x.book, side); forall i | 0 <= i < |s| :: s[i].side == side && s[i].qty > 0
  {
  }

  function IncomingOf(x: Exchange, req: Request): Incoming
    requires req.New?
  {
    Incoming(req.ticker, Owner(req.client, req.coid), x.nextId % TWO_32, req.side, req.price)
  }

  /** A new order on the other side of the book. */
  lemma {:induction false} NewOpposite(x: Exchange, req: Request, me: nat, side: Side, o: OMOrder)
    requires Inv(x) && Shown(Half(x.book, side), me, o) && req.New? && req.side == Opposite(side)
    ensures Follows(x, req, me, side, o) && Evolves(o, Result(x, req, me, side, o))
  {
    var inc := IncomingOf(x, req);
    HalfFacts(x, side);
    hide HalfOk, Inv;
    MatchAllPassive(inc, Half(x.book, side), req.qty, me, o, x.nextId);
    var m := MatchAll(inc, Half(x.book, side), req.qty);
    var acc := Accepted(req.client, req.ticker, req.coid, x.nextId, req.side, req.price, req.qty);
    MineConcat([acc], m.resps, me, req.ticker, side);
    MineOne(acc, me, req.ticker, side);
    hide MatchAll, Shown;
    var out := Process(x, req);
    assert out.resps == [acc] + m.resps && Half(out.exchange.book, side) == m.opp;
    assert Mine(out.resps, me, req.ticker, side) == Mine(m.resps, me, req.ticker, side);
  }

  /** A new order of another client on the slot's own side. */
  lemma {:induction false} NewBeside(x: Exchange, req: Request, me: nat, side: Side, o: OMOrder)
    requires Inv(x) && Shown(Half(x.book, side), me, o) && req.New? && req.side == side && req.client != me
    ensures Follows(x, req, me, side, o) && Evolves(o, Result(x, req, me, side, o))
  {
    var inc := IncomingOf(x, req);
    var opp := Half(x.book, Opposite(side));
    HalfFacts(x, Opposite(side));
    hide HalfOk, Inv;
    MatchAllActive(inc, opp, req.qty, me, o);
    var m := MatchAll(inc, opp, req.qty);
    var acc := Accepted(req.client, req.ticker, req.coid, x.nextId, req.side, req.price, req.qty);
    MineConcat([acc], m.resps, me, req.ticker, side);
    MineOne(acc, me, req.ticker, side);
    hide MatchAll, Shown;
    if m.leaves > 0 {
      var own := Half(x.book, side);
      InsertShown(own, Order(inc.owner, x.nextId, side, req.price, m.leaves, NextPriority(own, side, req.price)), me,
          o);
    }
  }

  /** The slot's own new order. */
  lemma {:induction false} NewOwn(x: Exchange, req: Request, me: nat, side: Side, o: OMOrder)
    requires Inv(x) && Shown(Half(x.book, side), me, o) && req.New? && req.side == side && req.client == me
    requires o.state.PendingNew? && o.coid == req.coid && o.qty == req.qty
    ensures Follows(x, req, me, side, o) && Evolves(o.(state := Live), Result(x, req, me, side, o))
  {
    var inc := IncomingOf(x, req);
    var opp := Half(x.book, Opposite(side));
    HalfFacts(x, Opposite(side));
    hide HalfOk, Inv;
    var live := o.(state := Live);
    MatchAllActive(inc, opp, req.qty, me, live);
    var m := MatchAll(inc, opp, req.qty);
    var acc := Accepted(req.client, req.ticker, req.coid, x.nextId, req.side, req.price, req.qty);
    MineConcat([acc], m.resps, me, req.ticker, side);
    MineOne(acc, me, req.ticker, side);
    FitOne(o, acc);
    FitConcat(o, [acc], Mine(m.resps, me, req.ticker, side));
    hide MatchAll;
    if m.leaves > 0 {
      var own := Half(x.book, side);
      InsertOwn(own, Order(inc.owner, x.nextId, side, req.price, m.leaves, NextPriority(own, side, req.price)), me);
    }
  }

  /** A cancel that does not name what rests for the slot. */
  lemma {:induction false} CancelBeside(x: Exchange, req: Request, me: nat, side: Side, o: OMOrder)
    requires Inv(x) && Shown(Half(x.book, side), me, o) && req.CancelOrder?
    requires req.client == me && req.coid == o.coid ==> Leaves(o) == 0
    ensures Follows(x, req, me, side, o) && Result(x, req, me, side, o) == o
  {
    var out := Process(x, req);
    var owner := Owner(req.client, req.coid);
    var i := FindOwner(x.book.bids, owner);
    var j := FindOwner(x.book.asks, owner);
    MineOne(out.resps[0], me, req.ticker, side);
    if i < |x.book.bids| {
      if side.Buy? {
        WithoutShown(x.book.bids, i, me, o);
      }
    } else if j < |x.book.asks| {
      if side.Sell? {
        WithoutShown(x.book.asks, j, me, o);
      }
    }
  }

  /** The cancel of what rests for the slot. */
  lemma {:induction false} CancelOwn(x: Exchange, req: Request, me: nat, side: Side, o: OMOrder)
    requires Inv(x) && Shown(Half(x.book, side), me, o) && req.CancelOrder?
    requires req.client == me && req.coid == o.coid && o.state.PendingCancel? && o.qty > 0
    ensures Follows(x, req, me, side, o) && Result(x, req, me, side, o) == o.(state := Dead)
  {
    var s := Half(x.book, side);
    var f := FoundOwn(x, req, me, side, o);
    var r := Process(x, req).resps[0];
    MineOne(r, me, req.ticker, side);
    FitOne(o, r);
    assert forall h | 0 <= h < |Without(s, f)| :: Without(s, f)[h] == s[if h < f then h else h + 1];
  }

  lemma {:induction false} FoundOwn(x: Exchange, req: Request, me: nat, side: Side, o: OMOrder) returns (f: nat)
    requires Inv(x) && Shown(Half(x.book, side), me, o) && req.CancelOrder?
    requires req.client == me && req.coid == o.coid && o.state.PendingCancel? && o.qty > 0
    ensures var s := Half(x.book, side);
            && f < |s| && s[f].qty == o.qty && s[f].owner == Owner(me, o.coid)
            && Process(x, req) == RemoveAt(x, side, f, req.ticker)
            && forall h | 0 <= h < |s| && h != f :: s[h].owner.client != me
  {
    var owner := Owner(req.client, req.coid);
    var s := Half(x.book, side);
    var k :| 0 <= k < |s| && s[k].owner.client == me;
    assert s[k].owner == owner;
    if side.Sell? {
      assert forall h | 0 <= h < |x.book.bids| :: Apart(x.book.bids[h], x.book.asks[k]);
      f := FindOwner(x.book.asks, owner);
    } else {
      f := FindOwner(x.book.bids, owner);
    }
    assert f < |s|;
    forall h | 0 <= h < |s| && h != f ensures s[h].owner.client != me {
      assert if h < f then PairOk(s[h], s[f]) else PairOk(s[f], s[h]);
    }
  }
}
