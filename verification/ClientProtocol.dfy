/**
  One trading client against the exchange over asynchronous channels. Requests in flight are handled in
  any order; responses arrive in the order they were sent. The strategy may ask for anything at any time,
  and other clients may send any legal requests.
*/
module ClientProtocol {
  import opened Types
  import opened PriceTime
  import opened Matching
  import opened OrderManagers
  import opened SlotTraces

  /** The client's id and its risk limits, one per ticker. */
  datatype Config = Config(me: nat, risk: seq<RiskCfg>)

  datatype World = World(
    books: seq<Exchange>, requests: multiset<Request>, inbox: seq<Response>, desk: Desk, position: seq<int>)

  datatype Event =
    | Strategy(ticker: nat, side: Side, price: int, qty: nat, totalPnl: real)
    | OwnRequest(req: Request)
    | OtherRequest(req: Request)
    | Receive

  function Initial(c: Config): World {
    var n := |c.risk|;
    World(seq(n, _ => EMPTY), multiset{}, [], Desk(seq(n, _ => Pair(Unused(Buy), Unused(Sell))), 1), seq(n, _ => 0))
  }

  /** The responses that go to this client. */
  function ForMe(rs: seq<Response>, me: nat): seq<Response> {
    if rs == [] then [] else (if rs[0].client == me then [rs[0]] else []) + ForMe(rs[1..], me)
  }

  ghost predicate Shaped(c: Config, w: World) {
    && |w.books| == |w.desk.slots| == |w.position| == |c.risk|
    && (forall r | r in w.requests :: r.client == c.me && r.ticker < |c.risk|)
    && (forall i | 0 <= i < |w.inbox| :: w.inbox[i].client == c.me && w.inbox[i].ticker < |c.risk|)
  }

  ghost predicate Enabled(c: Config, w: World, e: Event) {
    match e
    case Strategy(t, _, _, _, _) => t < |c.risk|
    case OwnRequest(req) => req in w.requests
    case OtherRequest(req) => req.client != c.me && req.ticker < |c.risk| && req.ticker < |w.books|
        && Legal(w.books[req.ticker], req)
    case Receive => w.inbox != []
  }

  /** `PositionInfo::addFill`, as far as the position goes. */
  function Filled32(position: int, r: Response): int {
    if r.Filled? then Wrap32(position + SideValue(r.side) * r.exec) else position
  }

  ghost function Handled(c: Config, w: World, req: Request): World
    requires req.ticker < |w.books|
  {
    var out := Process(w.books[req.ticker], req);
    w.(books := w.books[req.ticker := out.exchange], inbox := w.inbox + ForMe(out.resps, c.me))
  }

  ghost function Moved(c: Config, w: World, e: Event): Sent
    requires Shaped(c, w) && e.Strategy? && e.ticker < |c.risk|
  {
    MoveOrder(w.desk, c.me, e.ticker, e.price, e.side, e.qty,
              CheckPreTradeRisk(c.risk[e.ticker], w.position[e.ticker], e.totalPnl, e.side, e.qty))
  }

  ghost function After(c: Config, w: World, e: Event): World
    requires Shaped(c, w) && Enabled(c, w, e)
  {
    match e
    case Strategy(_, _, _, _, _) =>
      var sent := Moved(c, w, e);
      w.(desk := sent.desk, requests := w.requests + multiset(sent.reqs))
    case OwnRequest(req) => Handled(c, w, req).(requests := w.requests - multiset{req})
    case OtherRequest(req) => Handled(c, w, req)
    case Receive =>
      var r := w.inbox[0];
      w.(inbox := w.inbox[1..], desk := OnUpdate(w.desk, r),
         position := w.position[r.ticker := Filled32(w.position[r.ticker], r)])
  }

  // ---------------------------------------------------------------- invariant

  /** The slot, the responses on their way to it, and what rests at the exchange. */
  ghost predicate Linked(
      me: nat, t: nat, side: Side, half: seq<Order<Owner>>, rs: seq<Response>, o: OMOrder, next: nat) {
    && (!o.state.Invalid? ==> o.ticker == t && o.side == side && o.coid < next)
    && AllFit(o, rs)
    && Shown(half, me, Drain(o, rs))
  }

  /** The requests on their way from the slot; `e` is the slot after all responses on their way to it. */
  ghost predicate Asked(me: nat, t: nat, side: Side, requests: multiset<Request>, e: OMOrder) {
    var req := New(me, e.coid, t, side, e.price, e.qty);
    && (forall r | r in requests && r.New? && r.ticker == t && r.side == side ::
          e.state.PendingNew? && r == req && requests[r] == 1)
    && (e.state.PendingNew? ==> req in requests)
    && (e.state.PendingCancel? && e.qty > 0 ==> CancelOrder(me, e.coid, t) in requests)
  }

  /** A cancel on its way names an old order, or one the slot is waiting to lose. */
  ghost predicate Stale(requests: multiset<Request>, t: nat, o: OMOrder) {
    forall r | r in requests && r.CancelOrder? && r.ticker == t && r.coid == o.coid ::
      o.state.Invalid? || o.state.PendingCancel? || o.state.Dead?
  }

  ghost predicate CancelsKnown(requests: multiset<Request>, next: nat) {
    forall r | r in requests && r.CancelOrder? :: r.coid < next
  }

  ghost function Arriving(c: Config, w: World, t: nat, side: Side): seq<Response> {
    Mine(w.inbox, c.me, t, side)
  }

  /** The slot as it will be once everything on its way has arrived. */
  ghost function Settled(c: Config, w: World, t: nat, side: Side): OMOrder
    requires t < |w.desk.slots|
  {
    Drain(SlotAt(w.desk, t, side), Arriving(c, w, t, side))
  }

  ghost predicate SlotOk(c: Config, w: World, t: nat, side: Side)
    requires t < |w.desk.slots| && t < |w.books|
  {
    && Linked(c.me, t, side, Half(w.books[t].book, side), Arriving(c, w, t, side), SlotAt(w.desk, t, side), w.desk.next)
    && Asked(c.me, t, side, w.requests, Settled(c, w, t, side))
    && Stale(w.requests, t, SlotAt(w.desk, t, side))
  }

  /** Buy and sell slot of a ticker never hold the same client order id. */
  predicate DistinctIds(p: Pair) {
    p.buy.state.Invalid? || p.sell.state.Invalid? || p.buy.coid != p.sell.coid
  }

  ghost predicate TickerOk(c: Config, w: World, t: nat)
    requires t < |w.desk.slots| && t < |w.books|
  {
    && Matching.Inv(w.books[t]) && w.books[t].nextId >= 1
    && SlotOk(c, w, t, Buy) && SlotOk(c, w, t, Sell)
    && DistinctIds(w.desk.slots[t])
  }

  ghost predicate ProtocolInv(c: Config, w: World) {
    && Shaped(c, w) && CancelsKnown(w.requests, w.desk.next)
    && forall t | 0 <= t < |c.risk| :: TickerOk(c, w, t)
  }

  // ---------------------------------------------------------------- routing of responses

  lemma {:induction false} MineForMe(rs: seq<Response>, me: nat, t: nat, side: Side)
    ensures Mine(ForMe(rs, me), me, t, side) == Mine(rs, me, t, side)
  {
    if rs != [] {
      MineForMe(rs[1..], me, t, side);
      if rs[0].client == me {
        MineConcat([rs[0]], ForMe(rs[1..], me), me, t, side);
        MineOne(rs[0], me, t, side);
      } else {
        assert ForMe(rs, me) == ForMe(rs[1..], me);
      }
    }
  }

  ghost predicate AllAbout(rs: seq<Response>, t: nat) {
    forall i | 0 <= i < |rs| :: rs[i].ticker == t
  }

  lemma {:induction false} ForMeAbout(rs: seq<Response>, me: nat, t: nat)
    requires AllAbout(rs, t)
    ensures AllAbout(ForMe(rs, me), t) && forall i | 0 <= i < |ForMe(rs, me)| :: ForMe(rs, me)[i].client == me
  {
    if rs != [] {
      ForMeAbout(rs[1..], me, t);
    }
  }

  lemma {:induction false} MatchAbout(inc: Incoming, opp: seq<Order<Owner>>, leaves: nat)
    ensures AllAbout(MatchAll(inc, opp, leaves).resps, inc.ticker)
    decreases |opp| + leaves
  {
    if CanMatch(inc, opp, leaves) {
      var m := MatchHead(inc, opp, leaves);
      assert |m.opp| + m.leaves < |opp| + leaves;
      MatchAbout(inc, m.opp, m.leaves);
    }
  }

  lemma {:induction false} ProcessAbout(x: Exchange, req: Request)
    ensures AllAbout(Process(x, req).resps, req.ticker)
  {
    if req.New? {
      MatchAbout(IncomingOf(x, req), Half(x.book, Opposite(req.side)), req.qty);
    }
  }

  lemma {:induction false} NoneMine(rs: seq<Response>, me: nat, t: nat, t': nat, side: Side)
    requires AllAbout(rs, t) && t != t'
    ensures Mine(rs, me, t', side) == []
  {
    if rs != [] {
      NoneMine(rs[1..], me, t, t', side);
    }
  }

  /** A request adds to each slot's responses exactly those routed to it. */
  lemma {:induction false} ArrivingHandled(c: Config, w: World, req: Request, t: nat, side: Side)
    requires req.ticker < |w.books|
    ensures Arriving(c, Handled(c, w, req), t, side)
         == Arriving(c, w, t, side) + Mine(Process(w.books[req.ticker], req).resps, c.me, t, side)
  {
    var resps := Process(w.books[req.ticker], req).resps;
    MineConcat(w.inbox, ForMe(resps, c.me), c.me, t, side);
    MineForMe(resps, c.me, t, side);
  }

  lemma {:induction false} HandledShape(c: Config, w: World, req: Request)
    requires Shaped(c, w) && req.ticker < |w.books|
    ensures Shaped(c, Handled(c, w, req))
  {
    var resps := Process(w.books[req.ticker], req).resps;
    ProcessAbout(w.books[req.ticker], req);
    ForMeAbout(resps, c.me, req.ticker);
    var w' := Handled(c, w, req);
    var more := ForMe(resps, c.me);
    forall i | 0 <= i < |w'.inbox| ensures w'.inbox[i].client == c.me && w'.inbox[i].ticker < |c.risk| {
      assert i >= |w.inbox| ==> w'.inbox[i] == more[i - |w.inbox|];
    }
  }

  // ---------------------------------------------------------------- the exchange handles a request

  lemma {:induction false} FollowsLinked(c: Config, w: World, req: Request, side: Side)
    requires Shaped(c, w) && req.ticker < |w.books| && SlotOk(c, w, req.ticker, side)
    requires Follows(w.books[req.ticker], req, c.me, side, Settled(c, w, req.ticker, side))
    ensures var w', t := Handled(c, w, req), req.ticker;
            && Linked(c.me, t, side, Half(w'.books[t].book, side), Arriving(c, w', t, side), SlotAt(w'.desk, t, side),
                w'.desk.next)
            && Settled(c, w', t, side) == Result(w.books[t], req, c.me, side, Settled(c, w, t, side))
  {
    var t := req.ticker;
    ArrivingHandled(c, w, req, t, side);
    hide Process, Shown;
    FitConcat(SlotAt(w.desk, t, side), Arriving(c, w, t, side), Mine(Process(w.books[t], req).resps, c.me, t, side));
  }

  lemma {:induction false} AskedEvolves(
      me: nat, t: nat, side: Side, requests: multiset<Request>, e: OMOrder, e': OMOrder)
    requires Asked(me, t, side, requests, e) && Evolves(e, e')
    ensures Asked(me, t, side, requests, e')
  {
  }

  /** Taking away a request the slot does not wait for. */
  lemma {:induction false} AskedLess(me: nat, t: nat, side: Side, requests: multiset<Request>, req: Request, e: OMOrder)
    requires Asked(me, t, side, requests, e) && req in requests
    requires req.New? ==> req.ticker != t || req.side != side
    requires req == CancelOrder(me, e.coid, t) ==> !(e.state.PendingCancel? && e.qty > 0)
    ensures Asked(me, t, side, requests - multiset{req}, e)
  {
  }

  lemma {:induction false} StaleLess(requests: multiset<Request>, req: Request, t: nat, o: OMOrder)
    requires Stale(requests, t, o) && req in requests
    ensures Stale(requests - multiset{req}, t, o)
  {
  }

  lemma {:induction false} DrainKeeps(o: OMOrder, rs: seq<Response>)
    requires AllFit(o, rs)
    ensures Drain(o, rs).coid == o.coid && Drain(o, rs).price == o.price
    ensures o.state.Invalid? || o.state.Dead? ==> rs == []
    ensures o.state.PendingCancel? ==> Drain(o, rs).state.PendingCancel? || Drain(o, rs).state.Dead?
    ensures Drain(o, rs).state.PendingNew? ==> rs == []
    ensures o.state.Live? ==> Drain(o, rs).state.Live? || Drain(o, rs).state.Dead?
    decreases |rs|
  {
    if rs != [] {
      DrainKeeps(Updated(o, rs[0]), rs[1..]);
    }
  }

  /** A request that is not this slot's own business. */
  lemma {:induction false} BystanderFollows(c: Config, w: World, req: Request, side: Side)
    requires Shaped(c, w) && req.ticker < |c.risk| && TickerOk(c, w, req.ticker)
    requires req.New? ==> req.client != c.me || req.side != side
    requires req.CancelOrder? ==>
               req.client == c.me && req.coid == Settled(c, w, req.ticker, side).coid ==>
                 Leaves(Settled(c, w, req.ticker, side)) == 0
    ensures var x, e := w.books[req.ticker], Settled(c, w, req.ticker, side);
            Follows(x, req, c.me, side, e) && Evolves(e, Result(x, req, c.me, side, e))
  {
    var x, e := w.books[req.ticker], Settled(c, w, req.ticker, side);
    hide Matching.Inv, Follows, Process, Shown, Asked, Stale;
    if req.CancelOrder? {
      CancelBeside(x, req, c.me, side, e);
    } else if req.side == side {
      NewBeside(x, req, c.me, side, e);
    } else {
      NewOpposite(x, req, c.me, side, e);
    }
  }

  /** The world after one of the client's own requests. */
  ghost function OwnHandled(c: Config, w: World, req: Request): World
    requires req.ticker < |w.books|
  {
    Handled(c, w, req).(requests := w.requests - multiset{req})
  }

  /** A request of somebody else leaves every slot of its ticker in order. */
  lemma {:induction false} OtherSlot(c: Config, w: World, req: Request, side: Side)
    requires Shaped(c, w) && req.ticker < |c.risk| && TickerOk(c, w, req.ticker) && req.client != c.me
    ensures SlotOk(c, Handled(c, w, req), req.ticker, side)
  {
    BystanderFollows(c, w, req, side);
    hide Follows, Evolves, Linked, Asked, Stale, Matching.Inv, Result;
    FollowsLinked(c, w, req, side);
    var e := Settled(c, w, req.ticker, side);
    AskedEvolves(c.me, req.ticker, side, w.requests, e, Result(w.books[req.ticker], req, c.me, side, e));
  }

  /** One of the client's own requests, seen by a slot it is not about. */
  lemma {:induction false} BystanderSlot(c: Config, w: World, req: Request, side: Side)
    requires Shaped(c, w) && req in w.requests && TickerOk(c, w, req.ticker)
    requires req.New? ==> req.side != side
    requires req.CancelOrder? ==>
               req.coid == Settled(c, w, req.ticker, side).coid ==> Leaves(Settled(c, w, req.ticker, side)) == 0
    ensures SlotOk(c, OwnHandled(c, w, req), req.ticker, side)
  {
    BystanderFollows(c, w, req, side);
    FollowsLinked(c, w, req, side);
    var t := req.ticker;
    var e := Settled(c, w, t, side);
    AskedLess(c.me, t, side, w.requests, req, e);
    StaleLess(w.requests, req, t, SlotAt(w.desk, t, side));
    hide Follows, Evolves, Linked, Asked, Stale, Matching.Inv, Result;
    AskedEvolves(c.me, t, side, w.requests - multiset{req}, e, Result(w.books[t], req, c.me, side, e));
    assert Settled(c, OwnHandled(c, w, req), t, side) == Settled(c, Handled(c, w, req), t, side);
  }

  /** The slot's own new order reaches the exchange. */
  lemma {:induction false} OwnNewSlot(c: Config, w: World, req: Request)
    requires Shaped(c, w) && req in w.requests && TickerOk(c, w, req.ticker) && req.New?
    ensures SlotOk(c, OwnHandled(c, w, req), req.ticker, req.side)
  {
    var t, side := req.ticker, req.side;
    var e := Settled(c, w, t, side);
    NewOwn(w.books[t], req, c.me, side, e);
    FollowsLinked(c, w, req, side);
    var e' := Result(w.books[t], req, c.me, side, e);
    var less := w.requests - multiset{req};
    assert forall r | r != req :: less[r] == w.requests[r];
    assert Asked(c.me, t, side, less, e');
    StaleLess(w.requests, req, t, SlotAt(w.desk, t, side));
    hide Follows, Evolves, Linked, Asked, Stale, Matching.Inv, Result;
    assert Settled(c, OwnHandled(c, w, req), t, side) == e';
  }

  lemma {:induction false} NotAsked(me: nat, t: nat, side: Side, requests: multiset<Request>, req: Request, e: OMOrder)
    requires Asked(me, t, side, requests, e) && req in requests && !e.state.PendingNew?
    ensures Asked(me, t, side, requests - multiset{req}, e.(state := Dead))
  {
  }

  /** The slot's own cancel reaches the exchange before the order is gone. */
  lemma {:induction false} OwnCancelSlot(c: Config, w: World, req: Request, side: Side)
    requires Shaped(c, w) && req in w.requests && TickerOk(c, w, req.ticker) && req.CancelOrder?
    requires var e := Settled(c, w, req.ticker, side); req.coid == e.coid && Leaves(e) > 0
    ensures SlotOk(c, OwnHandled(c, w, req), req.ticker, side)
  {
    var t := req.ticker;
    var e := Settled(c, w, t, side);
    DrainKeeps(SlotAt(w.desk, t, side), Arriving(c, w, t, side));
    CancelOwn(w.books[t], req, c.me, side, e);
    FollowsLinked(c, w, req, side);
    var less := w.requests - multiset{req};
    NotAsked(c.me, t, side, w.requests, req, e);
    StaleLess(w.requests, req, t, SlotAt(w.desk, t, side));
    hide Follows, Evolves, Linked, Asked, Stale, Matching.Inv, Result;
    assert Settled(c, OwnHandled(c, w, req), t, side) == e.(state := Dead);
  }

  lemma {:induction false} OwnSlot(c: Config, w: World, req: Request, side: Side)
    requires Shaped(c, w) && req in w.requests && TickerOk(c, w, req.ticker)
    ensures SlotOk(c, OwnHandled(c, w, req), req.ticker, side)
  {
    var e := Settled(c, w, req.ticker, side);
    hide TickerOk, SlotOk;
    if req.New? && req.side == side {
      OwnNewSlot(c, w, req);
    } else if req.CancelOrder? && req.coid == e.coid && Leaves(e) > 0 {
      OwnCancelSlot(c, w, req, side);
    } else {
      BystanderSlot(c, w, req, side);
    }
  }

  /** A ticker the request is not about. */
  lemma {:induction false} ElsewhereSlot(c: Config, w: World, req: Request, t: nat, side: Side)
    requires Shaped(c, w) && t < |c.risk| && req.ticker < |c.risk| && req.ticker != t && SlotOk(c, w, t, side)
    ensures SlotOk(c, Handled(c, w, req), t, side)
    ensures req in w.requests ==> SlotOk(c, OwnHandled(c, w, req), t, side)
  {
    ArrivingHandled(c, w, req, t, side);
    ProcessAbout(w.books[req.ticker], req);
    NoneMine(Process(w.books[req.ticker], req).resps, c.me, req.ticker, t, side);
    var w' := Handled(c, w, req);
    assert Arriving(c, w', t, side) == Arriving(c, w, t, side);
    if req in w.requests {
      AskedLess(c.me, t, side, w.requests, req, Settled(c, w, t, side));
      StaleLess(w.requests, req, t, SlotAt(w.desk, t, side));
      assert Arriving(c, OwnHandled(c, w, req), t, side) == Arriving(c, w, t, side);
    }
  }

  /** Nothing of this client rests under the id of its new order. */
  lemma {:induction false} OwnNewLegal(c: Config, w: World, req: Request)
    requires Shaped(c, w) && req in w.requests && TickerOk(c, w, req.ticker)
    ensures Legal(w.books[req.ticker], req)
  {
    if req.New? {
      var t, side := req.ticker, req.side;
      var o, p := SlotAt(w.desk, t, side), SlotAt(w.desk, t, Opposite(side));
      DrainKeeps(o, Arriving(c, w, t, side));
      DrainKeeps(p, Arriving(c, w, t, Opposite(side)));
      assert Settled(c, w, t, side).state.PendingNew?;
      assert !o.state.Invalid? && req.coid == o.coid;
      var own, opp := Half(w.books[t].book, side), Half(w.books[t].book, Opposite(side));
      assert forall k | 0 <= k < |own| :: own[k].owner.client != c.me;
      assert forall k | 0 <= k < |opp| && opp[k].owner.client == c.me ::
          opp[k].owner.coid == p.coid && !p.state.Invalid?;
    }
  }

  lemma {:induction false} ElsewhereTicker(c: Config, w: World, req: Request, t: nat)
    requires Shaped(c, w) && t < |c.risk| && req.ticker < |c.risk| && req.ticker != t && TickerOk(c, w, t)
    ensures TickerOk(c, Handled(c, w, req), t)
    ensures req in w.requests ==> TickerOk(c, OwnHandled(c, w, req), t)
  {
    hide SlotOk, Matching.Inv, Process;
    ElsewhereSlot(c, w, req, t, Buy);
    ElsewhereSlot(c, w, req, t, Sell);
  }

  lemma {:induction false} OwnTicker(c: Config, w: World, req: Request)
    requires Shaped(c, w) && req in w.requests && TickerOk(c, w, req.ticker)
    ensures TickerOk(c, OwnHandled(c, w, req), req.ticker)
  {
    hide SlotOk, Matching.Inv, Process, Legal;
    OwnNewLegal(c, w, req);
    ProcessKeepsInv(w.books[req.ticker], req);
    OwnSlot(c, w, req, Buy);
    OwnSlot(c, w, req, Sell);
  }

  lemma {:induction false} OtherTicker(c: Config, w: World, req: Request)
    requires Shaped(c, w) && Enabled(c, w, OtherRequest(req)) && TickerOk(c, w, req.ticker)
    ensures TickerOk(c, Handled(c, w, req), req.ticker)
  {
    hide SlotOk, Matching.Inv, Process, Legal;
    ProcessKeepsInv(w.books[req.ticker], req);
    OtherSlot(c, w, req, Buy);
    OtherSlot(c, w, req, Sell);
  }

  lemma {:induction false} FewerRequests(c: Config, w: World, h: World, req: Request)
    requires Shaped(c, h) && h.requests == w.requests && h.desk == w.desk && CancelsKnown(w.requests, w.desk.next)
    ensures var w' := h.(requests := w.requests - multiset{req});
            Shaped(c, w') && CancelsKnown(w'.requests, w'.desk.next)
  {
  }

  lemma {:induction false} OwnKeepsInv(c: Config, w: World, req: Request)
    requires ProtocolInv(c, w) && req in w.requests
    ensures ProtocolInv(c, OwnHandled(c, w, req))
  {
    var w' := OwnHandled(c, w, req);
    hide TickerOk, Process, Shaped, CancelsKnown, Handled;
    HandledShape(c, w, req);
    FewerRequests(c, w, Handled(c, w, req), req);
    OwnTicker(c, w, req);
    forall t | 0 <= t < |c.risk| ensures TickerOk(c, w', t) {
      if t != req.ticker {
        ElsewhereTicker(c, w, req, t);
      }
    }
  }

  lemma {:induction false} OtherKeepsInv(c: Config, w: World, req: Request)
    requires ProtocolInv(c, w) && Enabled(c, w, OtherRequest(req))
    ensures ProtocolInv(c, Handled(c, w, req))
  {
    var w' := Handled(c, w, req);
    hide TickerOk, Process;
    HandledShape(c, w, req);
    OtherTicker(c, w, req);
    forall t | 0 <= t < |c.risk| ensures TickerOk(c, w', t) {
      if t != req.ticker {
        ElsewhereTicker(c, w, req, t);
      }
    }
  }

  // ---------------------------------------------------------------- a response arrives

  lemma {:induction false} MineHead(rs: seq<Response>, me: nat, t: nat, side: Side)
    requires rs != []
    ensures Mine(rs, me, t, side) == (if IsFor(rs[0], me, t, side) then [rs[0]] else []) + Mine(rs[1..], me, t, side)
  {
  }

  /** The response at the head of the inbox fits the slot it is routed to. */
  lemma {:induction false} HeadFits(c: Config, w: World, t: nat, side: Side)
    requires Shaped(c, w) && t < |c.risk| && SlotOk(c, w, t, side) && w.inbox != [] && IsFor(w.inbox[0], c.me, t, side)
    ensures Fits(SlotAt(w.desk, t, side), w.inbox[0])
  {
  }

  lemma {:induction false} ReceivedLinked(
      me: nat, t: nat, side: Side, half: seq<Order<Owner>>, r: Response, rs: seq<Response>, o: OMOrder, next: nat,
      requests: multiset<Request>)
    requires Linked(me, t, side, half, [r] + rs, o, next) && Stale(requests, t, o)
    ensures Linked(me, t, side, half, rs, Updated(o, r), next) && Stale(requests, t, Updated(o, r))
    ensures Drain(Updated(o, r), rs) == Drain(o, [r] + rs)
  {
  }

  lemma {:induction false} ReceiveShaped(c: Config, w: World)
    requires Shaped(c, w) && w.inbox != []
    ensures Shaped(c, After(c, w, Receive))
  {
    var w' := After(c, w, Receive);
    assert forall i | 0 <= i < |w'.inbox| :: w'.inbox[i] == w.inbox[i + 1];
  }

  lemma {:induction false} ReceiveSlot(c: Config, w: World, t: nat, side: Side)
    requires Shaped(c, w) && t < |c.risk| && SlotOk(c, w, t, side) && w.inbox != []
    ensures Shaped(c, After(c, w, Receive)) && SlotOk(c, After(c, w, Receive), t, side)
    ensures Settled(c, After(c, w, Receive), t, side) == Settled(c, w, t, side)
  {
    var r := w.inbox[0];
    var w' := After(c, w, Receive);
    ReceiveShaped(c, w);
    MineHead(w.inbox, c.me, t, side);
    ReceivedSlot(c, w, t, side);
    hide Linked, Asked, Stale, OnUpdate, Mine, Updated, SlotAt, Drain;
    var rs' := Arriving(c, w', t, side);
    var o := SlotAt(w.desk, t, side);
    assert w'.desk == OnUpdate(w.desk, r) && w'.books == w.books && w'.requests == w.requests;
    if IsFor(r, c.me, t, side) {
      ReceivedLinked(c.me, t, side, Half(w.books[t].book, side), r, rs', o, w.desk.next, w.requests);
    } else {
      assert Arriving(c, w, t, side) == rs';
    }
  }

  lemma {:induction false} ReceivedSlot(c: Config, w: World, t: nat, side: Side)
    requires Shaped(c, w) && t < |c.risk| && w.inbox != []
    ensures var r, o, d := w.inbox[0], SlotAt(w.desk, t, side), OnUpdate(w.desk, w.inbox[0]);
            |d.slots| == |w.desk.slots| && d.next == w.desk.next
            && SlotAt(d, t, side) == if IsFor(r, c.me, t, side) then Updated(o, r) else o
  {
  }

  lemma {:induction false} ReceiveKeepsInv(c: Config, w: World)
    requires ProtocolInv(c, w) && w.inbox != []
    ensures ProtocolInv(c, After(c, w, Receive))
  {
    var w' := After(c, w, Receive);
    assert forall i | 0 <= i < |w'.inbox| :: w'.inbox[i] == w.inbox[i + 1];
    hide SlotOk, Matching.Inv;
    forall t | 0 <= t < |c.risk| ensures TickerOk(c, w', t) {
      assert TickerOk(c, w, t);
      ReceiveSlot(c, w, t, Buy);
      ReceiveSlot(c, w, t, Sell);
      ReceiveApart(c, w, t);
    }
  }

  lemma {:induction false} ReceiveApart(c: Config, w: World, t: nat)
    requires Shaped(c, w) && t < |c.risk| && TickerOk(c, w, t) && w.inbox != []
    ensures DistinctIds(After(c, w, Receive).desk.slots[t])
  {
    SlotsOk(c, w, t);
    ReceivedSlot(c, w, t, Buy);
    ReceivedSlot(c, w, t, Sell);
    hide TickerOk, SlotOk, OnUpdate;
    if IsFor(w.inbox[0], c.me, t, Buy) {
      HeadFits(c, w, t, Buy);
    }
    if IsFor(w.inbox[0], c.me, t, Sell) {
      HeadFits(c, w, t, Sell);
    }
  }

  lemma {:induction false} SlotsOk(c: Config, w: World, t: nat)
    requires Shaped(c, w) && t < |c.risk| && TickerOk(c, w, t)
    ensures SlotOk(c, w, t, Buy) && SlotOk(c, w, t, Sell) && DistinctIds(w.desk.slots[t])
  {
  }

  // ---------------------------------------------------------------- the strategy moves an order

  lemma {:induction false} RelabelFit(o: OMOrder, rs: seq<Response>)
    requires o.state.Live? && AllFit(o, rs)
    ensures var o' := o.(state := PendingCancel);
            && AllFit(o', rs)
            && Drain(o', rs) == if Drain(o, rs).state.Live? then Drain(o, rs).(state := PendingCancel) else Drain(o, rs)
    decreases |rs|
  {
    if rs != [] {
      var e := Updated(o, rs[0]);
      if e.state.Live? {
        RelabelFit(e, rs[1..]);
      } else {
        DrainKeeps(e, rs[1..]);
      }
    } else {
      DrainKeeps(o, rs);
    }
  }

  /** One more request, not a new order for this slot. */
  lemma {:induction false} AskedMore(me: nat, t: nat, side: Side, requests: multiset<Request>, req: Request, e: OMOrder)
    requires Asked(me, t, side, requests, e) && (req.New? ==> req.ticker != t || req.side != side)
    ensures Asked(me, t, side, requests + multiset{req}, e)
  {
  }

  lemma {:induction false} StaleMore(requests: multiset<Request>, req: Request, t: nat, o: OMOrder)
    requires Stale(requests, t, o)
    requires req.CancelOrder? && req.ticker == t && req.coid == o.coid ==>
               o.state.Invalid? || o.state.PendingCancel? || o.state.Dead?
    ensures Stale(requests + multiset{req}, t, o)
  {
  }

  /** The world after the client has changed one slot and sent one request. */
  ghost function Sending(w: World, t: nat, side: Side, o: OMOrder, req: Request, next: nat): World
    requires t < |w.desk.slots|
  {
    w.(desk := Put(w.desk, t, side, o).(next := next), requests := w.requests + multiset{req})
  }

  lemma {:induction false} CancelingSlot(c: Config, w: World, t: nat, side: Side)
    requires Shaped(c, w) && t < |c.risk| && SlotOk(c, w, t, side) && SlotAt(w.desk, t, side).state.Live?
    ensures var o := SlotAt(w.desk, t, side);
            SlotOk(c, Sending(w, t, side, o.(state := PendingCancel), CancelOrder(c.me, o.coid, t), w.desk.next), t,
                side)
  {
    var o := SlotAt(w.desk, t, side);
    var req := CancelOrder(c.me, o.coid, t);
    var o' := o.(state := PendingCancel);
    var w' := Sending(w, t, side, o', req, w.desk.next);
    var rs := Arriving(c, w, t, side);
    RelabelFit(o, rs);
    DrainKeeps(o, rs);
    AskedMore(c.me, t, side, w.requests, req, Drain(o, rs));
    StaleMore(w.requests, req, t, o');
    assert SlotAt(w'.desk, t, side) == o' && Arriving(c, w', t, side) == rs;
  }

  lemma {:induction false} NewSlot(c: Config, w: World, t: nat, side: Side, price: int, qty: nat)
    requires Shaped(c, w) && t < |c.risk| && SlotOk(c, w, t, side) && CancelsKnown(w.requests, w.desk.next)
    requires SlotAt(w.desk, t, side).state.Invalid? || SlotAt(w.desk, t, side).state.Dead?
    ensures var n := w.desk.next;
            SlotOk(c, Sending(w, t, side, OMOrder(t, n, side, price, qty, PendingNew),
                New(c.me, n, t, side, price, qty), n + 1), t, side)
  {
  }

  /** Every other slot. */
  lemma {:induction false} SendingElsewhere(
      c: Config, w: World, t: nat, side: Side, o: OMOrder, req: Request, next: nat, t': nat, side': Side)
    requires Shaped(c, w) && t < |c.risk| && t' < |c.risk| && (t' != t || side' != side)
    requires SlotOk(c, w, t', side') && next >= w.desk.next && req.ticker == t && (req.New? ==> req.side == side)
    requires req.CancelOrder? && t' == t && req.coid == SlotAt(w.desk, t', side').coid ==>
               SlotAt(w.desk, t', side').state.Invalid?
    ensures SlotOk(c, Sending(w, t, side, o, req, next), t', side')
  {
  }

  /** The slot that sends is in order afterwards, and so is everything else. */
  lemma {:induction false} SendingKeepsInv(c: Config, w: World, t: nat, side: Side, o: OMOrder, req: Request, next: nat)
    requires ProtocolInv(c, w) && t < |c.risk| && next >= w.desk.next
    requires req.client == c.me && req.ticker == t && req.coid == o.coid < next && (req.New? ==> req.side == side)
    requires req.CancelOrder? ==> o.coid == SlotAt(w.desk, t, side).coid && !SlotAt(w.desk, t, side).state.Invalid?
    requires req.New? ==> o.coid == w.desk.next
    requires SlotOk(c, Sending(w, t, side, o, req, next), t, side)
    ensures ProtocolInv(c, Sending(w, t, side, o, req, next))
  {
    hide SlotOk, Matching.Inv;
    var w' := Sending(w, t, side, o, req, next);
    assert forall r | r in w'.requests :: r == req || r in w.requests;
    SlotsOk(c, w, t);
    assert TickerOk(c, w, t);
    OtherCoid(c, w, t, Opposite(side));
    forall t' | 0 <= t' < |c.risk| ensures TickerOk(c, w', t') {
      assert TickerOk(c, w, t');
      if t' != t || !side.Buy? {
        SendingElsewhere(c, w, t, side, o, req, next, t', Buy);
      }
      if t' != t || !side.Sell? {
        SendingElsewhere(c, w, t, side, o, req, next, t', Sell);
      }
    }
  }

  lemma {:induction false} OtherCoid(c: Config, w: World, t: nat, side: Side)
    requires Shaped(c, w) && t < |c.risk| && SlotOk(c, w, t, side)
    ensures var o := SlotAt(w.desk, t, side); o.state.Invalid? || o.coid < w.desk.next
  {
  }

  /** What a strategy call can do, given that a working slot knows its own ticker. */
  lemma {:induction false} StrategyCases(c: Config, w: World, e: Event)
    requires Shaped(c, w) && e.Strategy? && e.ticker < |c.risk|
    requires var o := SlotAt(w.desk, e.ticker, e.side); !o.state.Invalid? ==> o.ticker == e.ticker
    ensures var t, side, n := e.ticker, e.side, w.desk.next;
            var o := SlotAt(w.desk, t, side);
            var w' := After(c, w, e);
            || w' == w
            || (o.state.Live? && w' == Sending(w, t, side, o.(state := PendingCancel), CancelOrder(c.me, o.coid, t), n))
            || (&& (o.state.Invalid? || o.state.Dead?)
                && CheckPreTradeRisk(c.risk[t], w.position[t], e.totalPnl, side, e.qty) == Allowed
                && w' == Sending(w, t, side, OMOrder(t, n, side, e.price, e.qty, PendingNew),
                                 New(c.me, n, t, side, e.price, e.qty), n + 1))
  {
  }

  lemma {:induction false} CancelingKeepsInv(c: Config, w: World, t: nat, side: Side)
    requires ProtocolInv(c, w) && t < |c.risk| && SlotAt(w.desk, t, side).state.Live?
    ensures var o := SlotAt(w.desk, t, side);
            ProtocolInv(c, Sending(w, t, side, o.(state := PendingCancel), CancelOrder(c.me, o.coid, t), w.desk.next))
  {
    var o := SlotAt(w.desk, t, side);
    hide SlotOk, Sending;
    SlotInOrder(c, w, t, side);
    LiveTicker(c, w, t, side);
    CancelingSlot(c, w, t, side);
    hide TickerOk;
    SendingKeepsInv(c, w, t, side, o.(state := PendingCancel), CancelOrder(c.me, o.coid, t), w.desk.next);
  }

  lemma {:induction false} NewKeepsInv(c: Config, w: World, t: nat, side: Side, price: int, qty: nat)
    requires ProtocolInv(c, w) && t < |c.risk|
    requires SlotAt(w.desk, t, side).state.Invalid? || SlotAt(w.desk, t, side).state.Dead?
    ensures var n := w.desk.next;
            ProtocolInv(c, Sending(w, t, side, OMOrder(t, n, side, price, qty, PendingNew),
                New(c.me, n, t, side, price, qty), n + 1))
  {
    var n := w.desk.next;
    hide SlotOk, Sending;
    SlotInOrder(c, w, t, side);
    NewSlot(c, w, t, side, price, qty);
    hide TickerOk;
    SendingKeepsInv(c, w, t, side, OMOrder(t, n, side, price, qty, PendingNew), New(c.me, n, t, side, price, qty),
        n + 1);
  }

  lemma {:induction false} SlotInOrder(c: Config, w: World, t: nat, side: Side)
    requires ProtocolInv(c, w) && t < |c.risk|
    ensures SlotOk(c, w, t, side)
  {
    assert TickerOk(c, w, t);
  }

  lemma {:induction false} StrategyKeepsInv(c: Config, w: World, e: Event)
    requires ProtocolInv(c, w) && e.Strategy? && e.ticker < |c.risk|
    ensures ProtocolInv(c, After(c, w, e))
  {
    var t, side := e.ticker, e.side;
    var o := SlotAt(w.desk, t, side);
    SlotInOrder(c, w, t, side);
    hide ProtocolInv, Sending, After, SlotOk;
    if !o.state.Invalid? {
      LiveTicker(c, w, t, side);
    }
    StrategyCases(c, w, e);
    if After(c, w, e) != w {
      if o.state.Live? {
        CancelingKeepsInv(c, w, t, side);
      } else {
        NewKeepsInv(c, w, t, side, e.price, e.qty);
      }
    }
  }

  lemma {:induction false} LiveTicker(c: Config, w: World, t: nat, side: Side)
    requires Shaped(c, w) && t < |c.risk| && SlotOk(c, w, t, side) && !SlotAt(w.desk, t, side).state.Invalid?
    ensures SlotAt(w.desk, t, side).ticker == t && SlotAt(w.desk, t, side).coid < w.desk.next
  {
  }

  lemma {:induction false} StepKeepsInv(c: Config, w: World, e: Event)
    requires ProtocolInv(c, w) && Enabled(c, w, e)
    ensures ProtocolInv(c, After(c, w, e))
  {
    hide ProtocolInv;
    match e
    case Strategy(_, _, _, _, _) => StrategyKeepsInv(c, w, e);
    case OwnRequest(req) => OwnKeepsInv(c, w, req);
    case OtherRequest(req) => OtherKeepsInv(c, w, req);
    case Receive => ReceiveKeepsInv(c, w);
  }
}
