/**
  The converse of the position limit: for limits that 32-bit arithmetic does not respect, the strategy can buy its way
  to the limit, one share at a time, and then place an order that the check allows and that breaks it.
*/
module LimitBreach {
  import opened Types
  import opened PriceTime
  import opened Matching
  import opened OrderManagers
  import opened ClientProtocol
  import opened ClientSafety

  const PRICE: int := 100

  /** Nothing is in flight, the ticker's book is empty and the buy slot is idle. */
  ghost predicate Calm(c: Config, w: World, t: nat) {
    && Shaped(c, w) && t < |c.risk| && w.requests == multiset{} && w.inbox == []
    && w.books[t].book == Book([], [])
    && (SlotAt(w.desk, t, Buy).state.Invalid? || SlotAt(w.desk, t, Buy).state.Dead?)
  }

  /** A stranger's sell order that finds nothing to match rests. */
  lemma {:induction false} SellRests(x: Exchange, other: nat, t: nat, qty: nat)
    requires x.book == Book([], []) && qty > 0
    ensures var req := New(other, 0, t, Sell, PRICE, qty);
            var out := Process(x, req);
            && Legal(x, req)
            && out.exchange == Exchange(Book([], [Order(Owner(other, 0), x.nextId, Sell, PRICE, qty, 1)]), x.nextId + 1)
            && out.resps == [Accepted(other, t, 0, x.nextId, Sell, PRICE, qty)]
  {
    var o := Order(Owner(other, 0), x.nextId, Sell, PRICE, qty, 1);
    assert Insert([], o) == [o];
  }

  /** The client's buy order takes it whole. */
  lemma {:induction false} BuyTakes(x: Exchange, ask: Order<Owner>, me: nat, coid: nat, t: nat, qty: nat)
    requires x.book == Book([], [ask]) && ask.price == PRICE && ask.qty == qty > 0 && ask.side == Sell
    ensures var out := Process(x, New(me, coid, t, Buy, PRICE, qty));
            && out.exchange == Exchange(Book([], []), x.nextId + 1)
            && out.resps == [Accepted(me, t, coid, x.nextId, Buy, PRICE, qty),
                             Filled(me, t, coid, x.nextId % TWO_32, Buy, PRICE, qty, 0),
                             Filled(ask.owner.client, t, ask.owner.coid, ask.id, Sell, PRICE, qty, 0)]
  {
    var inc := Incoming(t, Owner(me, coid), x.nextId % TWO_32, Buy, PRICE);
    var m := MatchHead(inc, [ask], qty);
    assert MatchAll(inc, m.opp, m.leaves) == Matched([], 0, [], []);
    assert MatchAll(inc, [ask], qty).resps == m.resps;
  }

  lemma {:induction false} NotForMe(r: Response, me: nat)
    requires r.client != me
    ensures ForMe([r], me) == []
  {
    assert ForMe([r][1..], me) == [];
  }

  lemma {:induction false} TwoForMe(a: Response, b: Response, d: Response, me: nat)
    requires a.client == b.client == me != d.client
    ensures ForMe([a, b, d], me) == [a, b]
  {
    NotForMe(d, me);
    assert [a, b, d][1..] == [b, d] && [b, d][1..] == [d];
    assert ForMe([b, d], me) == [b];
  }

  /** The world with one order of the client on its way. */
  ghost function Asking(c: Config, w: World, t: nat, qty: nat): World
    requires Calm(c, w, t)
  {
    var n := w.desk.next;
    Sending(w, t, Buy, OMOrder(t, n, Buy, PRICE, qty, PendingNew), New(c.me, n, t, Buy, PRICE, qty), n + 1)
  }

  lemma {:induction false} Ask(c: Config, w: World, t: nat, qty: nat)
    requires Calm(c, w, t) && CheckPreTradeRisk(c.risk[t], w.position[t], c.risk[t].maxLoss, Buy, qty) == Allowed
    ensures var e := Strategy(t, Buy, PRICE, qty, c.risk[t].maxLoss);
            Enabled(c, w, e) && After(c, w, e) == Asking(c, w, t, qty)
  {
    var e := Strategy(t, Buy, PRICE, qty, c.risk[t].maxLoss);
    hide CheckPreTradeRisk;
    assert Moved(c, w, e) == NewOrder(w.desk, c.me, t, PRICE, Buy, qty);
  }

  lemma {:induction false} Offer(c: Config, w: World, t: nat, qty: nat)
    requires Shaped(c, w) && t < |c.risk| && w.books[t].book == Book([], []) && qty > 0
    ensures var req := New(c.me + 1, 0, t, Sell, PRICE, qty);
            var x := w.books[t];
            && Enabled(c, w, OtherRequest(req))
            && After(c, w, OtherRequest(req))
               == w.(books := w.books[t := Exchange(
                       Book([], [Order(Owner(c.me + 1, 0), x.nextId, Sell, PRICE, qty, 1)]), x.nextId + 1)])
  {
    SellRests(w.books[t], c.me + 1, t, qty);
    NotForMe(Accepted(c.me + 1, t, 0, w.books[t].nextId, Sell, PRICE, qty), c.me);
    hide Process, Legal;
    assert w.inbox + [] == w.inbox;
  }

  /** The client's order is on its way to a book that holds just what it asks for. */
  ghost predicate Meeting(c: Config, w: World, t: nat, coid: nat, qty: nat) {
    && Shaped(c, w) && t < |c.risk| && qty > 0 && w.inbox == []
    && w.requests == multiset{New(c.me, coid, t, Buy, PRICE, qty)}
    && |w.books[t].book.asks| == 1 && w.books[t].book.bids == []
    && var ask := w.books[t].book.asks[0];
       ask.price == PRICE && ask.qty == qty && ask.side == Sell && ask.owner.client != c.me
  }

  lemma {:induction false} Trade(c: Config, w: World, t: nat, coid: nat, qty: nat)
    requires Meeting(c, w, t, coid, qty)
    ensures var e := OwnRequest(New(c.me, coid, t, Buy, PRICE, qty));
            var id := w.books[t].nextId;
            && Enabled(c, w, e)
            && After(c, w, e) == w.(
                 books := w.books[t := Exchange(Book([], []), id + 1)], requests := multiset{},
                 inbox := [Accepted(c.me, t, coid, id, Buy, PRICE, qty),
                           Filled(c.me, t, coid, id % TWO_32, Buy, PRICE, qty, 0)])
  {
    var ask := w.books[t].book.asks[0];
    var req := New(c.me, coid, t, Buy, PRICE, qty);
    assert w.books[t].book == Book([], [ask]);
    BuyTakes(w.books[t], ask, c.me, coid, t, qty);
    var rs := Process(w.books[t], req).resps;
    TwoForMe(rs[0], rs[1], rs[2], c.me);
    assert rs == [rs[0], rs[1], rs[2]];
    hide Process;
    assert w.inbox + [rs[0], rs[1]] == [rs[0], rs[1]];
    assert multiset{req} - multiset{req} == multiset{};
  }

  /** The client hears of its fill. */
  lemma {:induction false} Hear(c: Config, w: World, t: nat, acc: Response, fill: Response)
    requires Shaped(c, w) && t < |c.risk| && w.inbox == [acc, fill]
    requires acc.Accepted? && acc.ticker == t && acc.side == Buy
    requires fill.Filled? && fill.ticker == t && fill.side == Buy && fill.leaves == 0
    ensures var w1 := After(c, w, Receive);
            && Shaped(c, w1) && w1.inbox == [fill] && w1.position == w.position
            && w1.books == w.books && w1.requests == w.requests
            && var w2 := After(c, w1, Receive);
               && w2.inbox == [] && w2.books == w.books && w2.requests == w.requests
               && SlotAt(w2.desk, t, Buy).state.Dead?
               && w2.position[t] == Wrap32(w.position[t] + fill.exec)
  {
    ReceiveShaped(c, w);
    var w1 := After(c, w, Receive);
    assert w1.position == w.position;
    assert w1.inbox == [fill];
    hide Wrap32;
  }

  /** One more event of a run. */
  lemma {:induction false} Go(c: Config, es: seq<Event>, w: World, e: Event)
    requires Exec(c, es) == Some(w) && Shaped(c, w) && Enabled(c, w, e)
    ensures Exec(c, es + [e]) == Some(After(c, w, e)) && Shaped(c, After(c, w, e))
  {
    ExecTo(c, es, w, e, After(c, w, e));
    ProtocolHolds(c, es + [e]);
  }

  /** One more buy: the client ends calm again, its position moved by the quantity. */
  lemma {:induction false} Round(c: Config, es: seq<Event>, w: World, t: nat, qty: nat)
      returns (es': seq<Event>, w': World)
    requires Exec(c, es) == Some(w) && Calm(c, w, t) && qty > 0
    requires CheckPreTradeRisk(c.risk[t], w.position[t], c.risk[t].maxLoss, Buy, qty) == Allowed
    ensures Exec(c, es') == Some(w') && Calm(c, w', t) && w'.position[t] == Wrap32(w.position[t] + qty)
  {
    hide Exec, CheckPreTradeRisk, Enabled, After, Wrap32;
    var e := Strategy(t, Buy, PRICE, qty, c.risk[t].maxLoss);
    Ask(c, w, t, qty);
    Go(c, es, w, e);
    var w1 := Asking(c, w, t, qty);
    assert w1.requests == multiset{New(c.me, w.desk.next, t, Buy, PRICE, qty)};
    es', w' := Meet(c, es + [e], w1, t, w.desk.next, qty);
    es', w' := Settle(c, es', w', t, qty);
  }

  /** A stranger offers what the client asks for, and the exchange matches the two. */
  lemma {:induction false} Meet(c: Config, es: seq<Event>, w: World, t: nat, coid: nat, qty: nat)
      returns (es': seq<Event>, w': World)
    requires Exec(c, es) == Some(w) && Shaped(c, w) && t < |c.risk| && qty > 0 && w.inbox == []
    requires w.requests == multiset{New(c.me, coid, t, Buy, PRICE, qty)} && w.books[t].book == Book([], [])
    ensures Exec(c, es') == Some(w') && Settling(c, w', t, qty) && w'.position == w.position
  {
    hide Exec, Enabled, After;
    var sell, buy := New(c.me + 1, 0, t, Sell, PRICE, qty), New(c.me, coid, t, Buy, PRICE, qty);
    Offer(c, w, t, qty);
    Go(c, es, w, OtherRequest(sell));
    var w1 := After(c, w, OtherRequest(sell));
    assert Meeting(c, w1, t, coid, qty);
    Trade(c, w1, t, coid, qty);
    Go(c, es + [OtherRequest(sell)], w1, OwnRequest(buy));
    es', w' := es + [OtherRequest(sell)] + [OwnRequest(buy)], After(c, w1, OwnRequest(buy));
  }

  /** Only the two responses to a trade are left to arrive. */
  ghost predicate Settling(c: Config, w: World, t: nat, qty: nat) {
    && Shaped(c, w) && t < |c.risk| && w.requests == multiset{} && w.books[t].book == Book([], []) && |w.inbox| == 2
    && w.inbox[0].Accepted? && w.inbox[0].ticker == t && w.inbox[0].side == Buy
    && w.inbox[1].Filled? && w.inbox[1].ticker == t && w.inbox[1].side == Buy
    && w.inbox[1].leaves == 0 && w.inbox[1].exec == qty
  }

  lemma {:induction false} Settle(c: Config, es: seq<Event>, w: World, t: nat, qty: nat)
      returns (es': seq<Event>, w': World)
    requires Exec(c, es) == Some(w) && Settling(c, w, t, qty)
    ensures Exec(c, es') == Some(w') && Calm(c, w', t) && w'.position[t] == Wrap32(w.position[t] + qty)
  {
    hide Exec, Wrap32, After, SlotAt;
    assert w.inbox == [w.inbox[0], w.inbox[1]];
    Hear(c, w, t, w.inbox[0], w.inbox[1]);
    Go(c, es, w, Receive);
    var w1 := After(c, w, Receive);
    Go(c, es + [Receive], w1, Receive);
    es', w' := es + [Receive] + [Receive], After(c, w1, Receive);
  }

  /** The strategy can reach every position up to its limit. */
  lemma {:induction false} Reach(c: Config, t: nat, p: nat) returns (es: seq<Event>, w: World)
    requires t < |c.risk| && p <= c.risk[t].maxPosition < TWO_31 <= c.risk[t].maxPosition + c.risk[t].maxOrder
    ensures Exec(c, es) == Some(w) && Calm(c, w, t) && w.position[t] == p
  {
    if p == 0 {
      es, w := [], Initial(c);
    } else {
      es, w := Reach(c, t, p - 1);
      hide Exec, Calm;
      es, w := Round(c, es, w, t, 1);
    }
  }

  ghost predicate KeepsLimit(c: Config, t: nat) {
    forall es | Exec(c, es).Some? ::
      t < |Exec(c, es).value.position| && t < |c.risk| && Within(c.risk[t].maxPosition, Exec(c, es).value.position[t])
  }

  /** A run that breaks the limit. */
  lemma {:induction false} Breach(c: Config, t: nat) returns (es: seq<Event>, w: World)
    requires t < |c.risk| && c.risk[t].maxPosition < TWO_31 <= c.risk[t].maxPosition + c.risk[t].maxOrder
    ensures Exec(c, es) == Some(w) && t < |w.position| && w.position[t] == Wrap32(TWO_31)
  {
    hide Exec, CheckPreTradeRisk, Wrap32, SlotAt;
    var cfg := c.risk[t];
    BreachAllowed(cfg.maxOrder, cfg.maxPosition, cfg.maxLoss);
    es, w := Reach(c, t, cfg.maxPosition);
    es, w := Round(c, es, w, t, TWO_31 - cfg.maxPosition);
  }

  /** The position limit of a ticker holds in every reachable state if and only if its limits fit 32 bits. */
  lemma {:induction false} PositionLimitExactly(c: Config, t: nat)
    requires t < |c.risk| && c.risk[t].maxPosition < TWO_32
    ensures KeepsLimit(c, t) <==> LimitFits(c.risk[t].maxOrder, c.risk[t].maxPosition)
  {
    var cfg := c.risk[t];
    if LimitFits(cfg.maxOrder, cfg.maxPosition) {
      forall es | Exec(c, es).Some?
        ensures t < |Exec(c, es).value.position| && Within(cfg.maxPosition, Exec(c, es).value.position[t])
      {
        Position32(c, es, t);
        if Limited(cfg) {
          PositionLimit(c, es, t);
        }
      }
    } else {
      var es, w := Breach(c, t);
      assert w.position[t] == -TWO_31;
    }
  }
}
