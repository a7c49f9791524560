/**
  Clips of zero. The exchange accepts an order of quantity zero, rests nothing and rejects its cancel, so the slot
  waits for good. This can happen on every ticker that can trade at all, and never with positive clips.
*/
module ZeroClips {
  import opened Types
  import opened PriceTime
  import opened Matching
  import opened OrderManagers
  import opened SlotTraces
  import opened ClientProtocol
  import opened ClientSafety
  import opened LimitBreach

  /** The buy slot holds an order of quantity zero in this state, and the ticker's book is empty. */
  ghost predicate Holding(c: Config, w: World, t: nat, state: OMState) {
    && Shaped(c, w) && t < |c.risk| && w.books[t].book == Book([], [])
    && var o := SlotAt(w.desk, t, Buy); o.ticker == t && o.qty == 0 && o.price == PRICE && o.state == state
  }

  // ---------------------------------------------------------------- what the exchange does with it

  lemma {:induction false} ZeroAccepted(x: Exchange, me: nat, coid: nat, t: nat)
    requires x.book == Book([], [])
    ensures var out := Process(x, New(me, coid, t, Buy, PRICE, 0));
            && out.exchange == Exchange(Book([], []), x.nextId + 1)
            && out.resps == [Accepted(me, t, coid, x.nextId, Buy, PRICE, 0)]
  {
  }

  lemma {:induction false} CancelRefused(x: Exchange, me: nat, coid: nat, t: nat)
    requires x.book == Book([], [])
    ensures var out := Process(x, CancelOrder(me, coid, t));
            out.exchange == x && out.resps == [CancelRejected(me, t, coid)]
  {
  }

  lemma {:induction false} AllForMe(r: Response)
    ensures ForMe([r], r.client) == [r]
  {
    assert ForMe([r][1..], r.client) == [];
  }

  // ---------------------------------------------------------------- step by step

  lemma {:induction false} Accept(c: Config, w: World, t: nat)
    requires Holding(c, w, t, PendingNew) && w.inbox == []
    requires w.requests == multiset{New(c.me, SlotAt(w.desk, t, Buy).coid, t, Buy, PRICE, 0)}
    ensures var e := OwnRequest(New(c.me, SlotAt(w.desk, t, Buy).coid, t, Buy, PRICE, 0));
            && Enabled(c, w, e)
            && var w' := After(c, w, e);
               && Holding(c, w', t, PendingNew) && w'.requests == multiset{}
               && |w'.inbox| == 1 && w'.inbox[0].Accepted? && w'.inbox[0].ticker == t && w'.inbox[0].side == Buy
  {
    var coid, x := SlotAt(w.desk, t, Buy).coid, w.books[t];
    var req := New(c.me, coid, t, Buy, PRICE, 0);
    ZeroAccepted(x, c.me, coid, t);
    AllForMe(Accepted(c.me, t, coid, x.nextId, Buy, PRICE, 0));
    hide Process;
    assert multiset{req} - multiset{req} == multiset{};
  }

  lemma {:induction false} GoesLive(c: Config, w: World, t: nat)
    requires Holding(c, w, t, PendingNew) && w.requests == multiset{}
    requires |w.inbox| == 1 && w.inbox[0].Accepted? && w.inbox[0].ticker == t && w.inbox[0].side == Buy
    ensures Enabled(c, w, Receive)
    ensures var w' := After(c, w, Receive); Holding(c, w', t, Live) && Quiet(w')
  {
  }

  lemma {:induction false} Reprice(c: Config, w: World, t: nat)
    requires Holding(c, w, t, Live) && Quiet(w)
    ensures var e := Strategy(t, Buy, PRICE + 1, 0, c.risk[t].maxLoss);
            && Enabled(c, w, e)
            && var w' := After(c, w, e);
               && Holding(c, w', t, PendingCancel) && w'.inbox == []
               && w'.requests == multiset{CancelOrder(c.me, SlotAt(w'.desk, t, Buy).coid, t)}
  {
    var e := Strategy(t, Buy, PRICE + 1, 0, c.risk[t].maxLoss);
    hide CheckPreTradeRisk;
    assert Moved(c, w, e).reqs == [CancelOrder(c.me, SlotAt(w.desk, t, Buy).coid, t)];
  }

  lemma {:induction false} Refuse(c: Config, w: World, t: nat)
    requires Holding(c, w, t, PendingCancel) && w.inbox == []
    requires w.requests == multiset{CancelOrder(c.me, SlotAt(w.desk, t, Buy).coid, t)}
    ensures var e := OwnRequest(CancelOrder(c.me, SlotAt(w.desk, t, Buy).coid, t));
            && Enabled(c, w, e)
            && var w' := After(c, w, e);
               && Holding(c, w', t, PendingCancel) && w'.requests == multiset{}
               && |w'.inbox| == 1 && w'.inbox[0].CancelRejected?
  {
    var coid := SlotAt(w.desk, t, Buy).coid;
    var req := CancelOrder(c.me, coid, t);
    CancelRefused(w.books[t], c.me, coid, t);
    AllForMe(CancelRejected(c.me, t, coid));
    hide Process;
    assert multiset{req} - multiset{req} == multiset{};
  }

  lemma {:induction false} Wait(c: Config, w: World, t: nat)
    requires Holding(c, w, t, PendingCancel) && w.requests == multiset{} && |w.inbox| == 1 && w.inbox[0].CancelRejected?
    ensures Enabled(c, w, Receive)
    ensures var w' := After(c, w, Receive); Holding(c, w', t, PendingCancel) && Quiet(w')
  {
  }

  /** A calm client that may place an order of quantity zero can be led to strand its buy slot. */
  lemma {:induction false} Strand(c: Config, es: seq<Event>, w: World, t: nat) returns (es': seq<Event>)
    requires Exec(c, es) == Some(w) && Calm(c, w, t)
    requires CheckPreTradeRisk(c.risk[t], w.position[t], c.risk[t].maxLoss, Buy, 0) == Allowed
    ensures Strands(c, es', t, Buy)
  {
    hide Exec, CheckPreTradeRisk, Enabled, After;
    var e := Strategy(t, Buy, PRICE, 0, c.risk[t].maxLoss);
    Ask(c, w, t, 0);
    Go(c, es, w, e);
    var w1 := Asking(c, w, t, 0);
    assert w1.requests == multiset{New(c.me, w.desk.next, t, Buy, PRICE, 0)};
    assert Holding(c, w1, t, PendingNew);
    es' := StrandSent(c, es + [e], w1, t);
  }

  lemma {:induction false} StrandSent(c: Config, es: seq<Event>, w: World, t: nat) returns (es': seq<Event>)
    requires Exec(c, es) == Some(w) && Holding(c, w, t, PendingNew) && w.inbox == []
    requires w.requests == multiset{New(c.me, SlotAt(w.desk, t, Buy).coid, t, Buy, PRICE, 0)}
    ensures Strands(c, es', t, Buy)
  {
    hide Exec, Enabled, After;
    var e := OwnRequest(New(c.me, SlotAt(w.desk, t, Buy).coid, t, Buy, PRICE, 0));
    Accept(c, w, t);
    Go(c, es, w, e);
    var w1 := After(c, w, e);
    GoesLive(c, w1, t);
    Go(c, es + [e], w1, Receive);
    es' := StrandLive(c, es + [e] + [Receive], After(c, w1, Receive), t);
  }

  lemma {:induction false} StrandLive(c: Config, es: seq<Event>, w: World, t: nat) returns (es': seq<Event>)
    requires Exec(c, es) == Some(w) && Holding(c, w, t, Live) && Quiet(w)
    ensures Strands(c, es', t, Buy)
  {
    hide Exec, Enabled, After;
    var e := Strategy(t, Buy, PRICE + 1, 0, c.risk[t].maxLoss);
    Reprice(c, w, t);
    Go(c, es, w, e);
    var w1 := After(c, w, e);
    var e1 := OwnRequest(CancelOrder(c.me, SlotAt(w1.desk, t, Buy).coid, t));
    Refuse(c, w1, t);
    Go(c, es + [e], w1, e1);
    var w2 := After(c, w1, e1);
    Wait(c, w2, t);
    Go(c, es + [e] + [e1], w2, Receive);
    es' := es + [e] + [e1] + [Receive];
  }

  // ---------------------------------------------------------------- exactly when

  ghost predicate Strands(c: Config, es: seq<Event>, t: nat, side: Side) {
    && Exec(c, es).Some? && Quiet(Exec(c, es).value) && t < |Exec(c, es).value.desk.slots|
    && Stranded(SlotAt(Exec(c, es).value.desk, t, side))
  }

  /** Some run whose clips on this ticker are never below `least` strands one of its slots. */
  ghost predicate CanStrand(c: Config, t: nat, least: nat) {
    exists es, side :: Strands(c, es, t, side) && ClipsFrom(es, t, least)
  }

  /** A position limit of 2^31 or more reads as negative, and only an order of 2^31 still passes the check. */
  predicate CanTrade(cfg: RiskCfg) {
    cfg.maxPosition < TWO_31 || cfg.maxOrder >= TWO_31
  }

  lemma {:induction false} ZeroAllowed(cfg: RiskCfg)
    requires cfg.maxPosition < TWO_32
    ensures cfg.maxPosition < TWO_31 ==> CheckPreTradeRisk(cfg, 0, cfg.maxLoss, Buy, 0) == Allowed
    ensures cfg.maxOrder >= TWO_31 && cfg.maxPosition >= TWO_31 ==>
              && CheckPreTradeRisk(cfg, 0, cfg.maxLoss, Buy, TWO_31) == Allowed
              && CheckPreTradeRisk(cfg, -TWO_31, cfg.maxLoss, Buy, 0) == Allowed
  {
    assert Wrap32(TWO_31) == -TWO_31 == Wrap32(-TWO_31) && Wrap32(0) == 0;
    assert Abs32(-TWO_31) == -TWO_31;
    assert cfg.maxPosition >= TWO_31 ==> Wrap32(cfg.maxPosition) == cfg.maxPosition - TWO_32;
  }

  /** Where trading is possible, a clip of zero strands a slot. */
  lemma {:induction false} ZeroClipStrands(c: Config, t: nat) returns (es: seq<Event>)
    requires t < |c.risk| && c.risk[t].maxPosition < TWO_32 && CanTrade(c.risk[t])
    ensures Strands(c, es, t, Buy)
  {
    ZeroAllowed(c.risk[t]);
    assert Calm(c, Initial(c), t);
    assert Exec(c, []) == Some(Initial(c));
    hide Exec, CheckPreTradeRisk, Calm;
    if c.risk[t].maxPosition < TWO_31 {
      es := Strand(c, [], Initial(c), t);
    } else {
      var es', w := Round(c, [], Initial(c), t, TWO_31);
      es := Strand(c, es', w, t);
    }
  }

  // ---------------------------------------------------------------- a ticker that never trades

  lemma {:induction false} NothingAllowed(cfg: RiskCfg, totalPnl: real, side: Side, qty: nat)
    requires cfg.maxPosition < TWO_32 && !CanTrade(cfg)
    ensures CheckPreTradeRisk(cfg, 0, totalPnl, side, qty) != Allowed
  {
    if qty <= cfg.maxOrder {
      assert Wrap32(qty) == qty && Wrap32(SideValue(side) * qty) == SideValue(side) * qty;
      assert Abs32(SideValue(side) * qty) == qty;
      assert Wrap32(cfg.maxPosition) < 0;
    }
  }

  ghost predicate Untraded(c: Config, w: World, t: nat) {
    && Shaped(c, w) && t < |c.risk| && w.position[t] == 0
    && SlotAt(w.desk, t, Buy).state.Invalid? && SlotAt(w.desk, t, Sell).state.Invalid?
  }

  lemma {:induction false} StepUntraded(c: Config, w: World, e: Event, t: nat)
    requires ProtocolInv(c, w) && Untraded(c, w, t) && Enabled(c, w, e)
    requires c.risk[t].maxPosition < TWO_32 && !CanTrade(c.risk[t])
    ensures Untraded(c, After(c, w, e), t)
  {
    StepKeepsInv(c, w, e);
    if e.Receive? {
      ReceiveNothing(c, w, t, Buy);
      ReceiveNothing(c, w, t, Sell);
      hide ProtocolInv, OnUpdate;
    } else if e.Strategy? {
      var o' := StrategyEffect(c, w, e);
      assert Shaped(c, After(c, w, e));
      NothingAllowed(c.risk[t], e.totalPnl, e.side, e.qty);
      hide ProtocolInv, After, Shaped, CheckPreTradeRisk;
    }
  }

  /** No response is on its way to a slot that never held an order. */
  lemma {:induction false} ReceiveNothing(c: Config, w: World, t: nat, side: Side)
    requires ProtocolInv(c, w) && t < |c.risk| && w.inbox != [] && SlotAt(w.desk, t, side).state.Invalid?
    ensures !IsFor(w.inbox[0], c.me, t, side)
    ensures var d := OnUpdate(w.desk, w.inbox[0]); t < |d.slots| && SlotAt(d, t, side) == SlotAt(w.desk, t, side)
  {
    SlotInOrder(c, w, t, side);
    hide ProtocolInv, SlotOk;
    ReceivedSlot(c, w, t, side);
    hide OnUpdate;
    if IsFor(w.inbox[0], c.me, t, side) {
      HeadFits(c, w, t, side);
    }
  }

  lemma {:induction false} NeverTrades(c: Config, es: seq<Event>, t: nat)
    requires Exec(c, es).Some? && t < |c.risk| && c.risk[t].maxPosition < TWO_32 && !CanTrade(c.risk[t])
    ensures Untraded(c, Exec(c, es).value, t)
  {
    if es != [] {
      NeverTrades(c, es[..|es| - 1], t);
      ProtocolHolds(c, es[..|es| - 1]);
      hide ProtocolInv, Untraded;
      StepUntraded(c, Exec(c, es[..|es| - 1]).value, es[|es| - 1], t);
    }
  }

  /** A slot of a ticker can be stranded if and only if clips of zero are possible and the ticker can trade at all. */
  lemma {:induction false} StrandsExactly(c: Config, t: nat, least: nat)
    requires t < |c.risk| && c.risk[t].maxPosition < TWO_32
    ensures CanStrand(c, t, least) <==> least == 0 && CanTrade(c.risk[t])
  {
    hide Exec, Quiet;
    if least == 0 && CanTrade(c.risk[t]) {
      var es := ZeroClipStrands(c, t);
      assert ClipsFrom(es, t, 0);
    }
    forall es, side | Strands(c, es, t, side) && ClipsFrom(es, t, least) ensures least == 0 && CanTrade(c.risk[t]) {
      if least > 0 {
        PositiveHolds(c, es, t);
      } else if !CanTrade(c.risk[t]) {
        NeverTrades(c, es, t);
      }
    }
  }
}
