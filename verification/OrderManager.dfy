/**
  The trading client's order manager: one order slot per ticker and side, moved through its states by
  strategy calls and exchange responses, behind the pre-trade risk check.
*/
module OrderManagers {
  import opened Types

  const TICKER_INVALID: nat := 0xFFFF_FFFF
  const ORDER_ID_INVALID: nat := 0xFFFF_FFFF_FFFF_FFFF

  datatype OMState = Invalid | PendingNew | Live | PendingCancel | Dead

  datatype OMOrder = OMOrder(ticker: nat, coid: nat, side: Side, price: int, qty: nat, state: OMState)

  /** A slot before its first order; its side is never read. */
  function Unused(side: Side): OMOrder {
    OMOrder(TICKER_INVALID, ORDER_ID_INVALID, side, PRICE_INVALID, QTY_INVALID, Invalid)
  }

  datatype Pair = Pair(buy: OMOrder, sell: OMOrder)

  /** All slots of a client and its next client order id. */
  datatype Desk = Desk(slots: seq<Pair>, next: nat)

  function Slot(p: Pair, side: Side): OMOrder {
    if side.Buy? then p.buy else p.sell
  }

  function WithSlot(p: Pair, side: Side, o: OMOrder): Pair {
    if side.Buy? then Pair(o, p.sell) else Pair(p.buy, o)
  }

  function SlotAt(d: Desk, t: nat, side: Side): OMOrder
    requires t < |d.slots|
  {
    Slot(d.slots[t], side)
  }

  function Put(d: Desk, t: nat, side: Side, o: OMOrder): Desk
    requires t < |d.slots|
  {
    d.(slots := d.slots[t := WithSlot(d.slots[t], side, o)])
  }

  /** What a response does to the slot it is routed to; order ids are not compared. */
  function Updated(o: OMOrder, r: Response): OMOrder {
    match r
    case Accepted(_, _, _, _, _, _, _) => o.(state := Live)
    case Canceled(_, _, _, _, _, _, _) => o.(state := Dead)
    case Filled(_, _, _, _, _, _, _, leaves) => o.(qty := leaves, state := if leaves == 0 then Dead else o.state)
    case CancelRejected(_, _, _) => o
  }

  function OnUpdate(d: Desk, r: Response): Desk
    requires r.ticker < |d.slots|
  {
    if r.CancelRejected? then d
    else Put(d, r.ticker, r.side, Updated(SlotAt(d, r.ticker, r.side), r))
  }

  // ---------------------------------------------------------------- risk

  datatype RiskCfg = RiskCfg(maxOrder: nat, maxPosition: nat, maxLoss: real)

  datatype RiskResult = OrderTooLarge | PositionTooLarge | LossTooLarge | Allowed

  function SideValue(side: Side): int {
    if side.Buy? then 1 else -1
  }

  /** `std::abs` on 32 bits: the least value has no positive counterpart. */
  function Abs32(x: int): (r: int)
    ensures -TWO_31 < x < TWO_31 ==> r == if x < 0 then -x else x
    ensures x != 0 && -TWO_31 <= x < TWO_31 ==> r != 0
  {
    if x < 0 then Wrap32(-x) else x
  }

  function CheckPreTradeRisk(cfg: RiskCfg, position: int, totalPnl: real, side: Side, qty: nat): RiskResult {
    if qty > cfg.maxOrder then OrderTooLarge
    else if Abs32(Wrap32(position + Wrap32(SideValue(side) * Wrap32(qty)))) > Wrap32(cfg.maxPosition) then
      PositionTooLarge
    else if totalPnl < cfg.maxLoss then LossTooLarge
    else Allowed
  }

  predicate Within(limit: nat, x: int) {
    0 - limit <= x <= limit
  }

  /**
    Whatever the check allows would leave the position within its limit if filled in full, for every 32-bit
    position and quantity.
  */
  ghost predicate RiskSound(maxOrder: nat, maxPosition: nat) {
    forall position, totalPnl, maxLoss, side, qty: nat ::
      -TWO_31 <= position < TWO_31 && qty < TWO_32 && Within(maxPosition, position)
      && CheckPreTradeRisk(RiskCfg(maxOrder, maxPosition, maxLoss), position, totalPnl, side, qty) == Allowed ==>
        Within(maxPosition, position + SideValue(side) * qty)
  }

  /** Limits that 32-bit arithmetic respects; one of 2^31 or more binds nothing. */
  predicate LimitFits(maxOrder: nat, maxPosition: nat) {
    maxPosition >= TWO_31 || maxPosition + maxOrder < TWO_31
  }

  /** An order that takes a position at its limit to 2^31: the sum wraps to a value without a magnitude. */
  lemma {:induction false} BreachAllowed(maxOrder: nat, maxPosition: nat, maxLoss: real)
    requires maxPosition < TWO_31 <= maxPosition + maxOrder
    ensures var cfg, qty := RiskCfg(maxOrder, maxPosition, maxLoss), TWO_31 - maxPosition;
            CheckPreTradeRisk(cfg, maxPosition, maxLoss, Buy, qty) == Allowed
  {
    var qty := TWO_31 - maxPosition;
    assert Wrap32(TWO_31) == -TWO_31;
    assert Wrap32(maxPosition + Wrap32(SideValue(Buy) * Wrap32(qty))) == -TWO_31;
  }

  lemma {:induction false} AllowedWithin(cfg: RiskCfg, position: int, totalPnl: real, side: Side, qty: nat)
    requires cfg.maxPosition < TWO_32 && LimitFits(cfg.maxOrder, cfg.maxPosition)
    requires -TWO_31 <= position < TWO_31 && qty < TWO_32 && Within(cfg.maxPosition, position)
    requires CheckPreTradeRisk(cfg, position, totalPnl, side, qty) == Allowed
    ensures Within(cfg.maxPosition, position + SideValue(side) * qty)
  {
    var total := position + SideValue(side) * qty;
    if cfg.maxPosition < TWO_31 {
      assert Wrap32(qty) == qty && -TWO_31 < total < TWO_31;
    } else {
      var signed := Wrap32(SideValue(side) * Wrap32(qty));
      assert Wrap32(cfg.maxPosition) < 0;
      assert Wrap32(position + signed) == -TWO_31;
    }
  }

  /** The exact range of limits in which 32-bit arithmetic does not undo the check. */
  lemma {:induction false} RiskSoundExactly(maxOrder: nat, maxPosition: nat)
    requires maxOrder < TWO_32 && maxPosition < TWO_32
    ensures RiskSound(maxOrder, maxPosition) <==> LimitFits(maxOrder, maxPosition)
  {
    hide CheckPreTradeRisk;
    if LimitFits(maxOrder, maxPosition) {
      forall position, totalPnl, maxLoss, side, qty: nat
        | -TWO_31 <= position < TWO_31 && qty < TWO_32 && Within(maxPosition, position)
          && CheckPreTradeRisk(RiskCfg(maxOrder, maxPosition, maxLoss), position, totalPnl, side, qty) == Allowed
        ensures Within(maxPosition, position + SideValue(side) * qty)
      {
        AllowedWithin(RiskCfg(maxOrder, maxPosition, maxLoss), position, totalPnl, side, qty);
      }
    } else {
      BreachAllowed(maxOrder, maxPosition, 0.0);
      assert !Within(maxPosition, maxPosition + SideValue(Buy) * (TWO_31 - maxPosition));
    }
  }

  /** The answer an order deserves, in exact arithmetic: the first limit that it breaks, if any. */
  ghost predicate Deserves(cfg: RiskCfg, position: int, totalPnl: real, side: Side, qty: nat, r: RiskResult) {
    var filled := position + SideValue(side) * qty;
    && (r.Allowed? <==> qty <= cfg.maxOrder && Within(cfg.maxPosition, filled) && totalPnl >= cfg.maxLoss)
    && (r.OrderTooLarge? <==> qty > cfg.maxOrder)
    && (r.PositionTooLarge? <==> qty <= cfg.maxOrder && !Within(cfg.maxPosition, filled))
    && (r.LossTooLarge? <==> qty <= cfg.maxOrder && Within(cfg.maxPosition, filled) && totalPnl < cfg.maxLoss)
  }

  /** Within limits that fit 32 bits, every answer of the check is the one deserved. */
  lemma {:induction false} RiskExactly(cfg: RiskCfg, position: int, totalPnl: real, side: Side, qty: nat)
    requires cfg.maxPosition < TWO_31 && LimitFits(cfg.maxOrder, cfg.maxPosition) && Within(cfg.maxPosition, position)
    ensures Deserves(cfg, position, totalPnl, side, qty, CheckPreTradeRisk(cfg, position, totalPnl, side, qty))
  {
    if qty <= cfg.maxOrder {
      var filled := position + SideValue(side) * qty;
      assert -TWO_31 < filled < TWO_31 && -TWO_31 < SideValue(side) * qty < TWO_31;
      assert Wrap32(position + Wrap32(SideValue(side) * Wrap32(qty))) == filled;
      assert Abs32(filled) == if filled < 0 then -filled else filled;
      hide Wrap32, Abs32;
    }
  }

  // ---------------------------------------------------------------- strategy calls

  datatype Sent = Sent(desk: Desk, reqs: seq<Request>)

  function NewOrder(d: Desk, me: nat, t: nat, price: int, side: Side, qty: nat): Sent
    requires t < |d.slots|
  {
    Sent(Put(d, t, side, OMOrder(t, d.next, side, price, qty, PendingNew)).(next := d.next + 1),
         [New(me, d.next, t, side, price, qty)])
  }

  function CancelSlot(d: Desk, me: nat, t: nat, side: Side): Sent
    requires t < |d.slots|
  {
    var o := SlotAt(d, t, side);
    Sent(Put(d, t, side, o.(state := PendingCancel)), [CancelOrder(me, o.coid, o.ticker)])
  }

  function MoveOrder(d: Desk, me: nat, t: nat, price: int, side: Side, qty: nat, risk: RiskResult): Sent
    requires t < |d.slots|
  {
    var o := SlotAt(d, t, side);
    match o.state
    case Live => if o.price != price then CancelSlot(d, me, t, side) else Sent(d, [])
    case Invalid =>
      if price != PRICE_INVALID && risk.Allowed? then NewOrder(d, me, t, price, side, qty) else Sent(d, [])
    case Dead => if price != PRICE_INVALID && risk.Allowed? then NewOrder(d, me, t, price, side, qty) else Sent(d, [])
    case PendingNew => Sent(d, [])
    case PendingCancel => Sent(d, [])
  }

  /** `sideToIndex`: SELL, INVALID, BUY and MAX are 0, 1, 2 and 3. */
  function SideIndex(side: Side): nat {
    if side.Buy? then 2 else 0
  }

  class OrderManager {
    const clientId: nat
    const tickerSideOrder: array2<OMOrder>
    var nextOrderId: nat
    /** Requests handed to the order gateway, oldest first. */
    var outgoing: seq<Request>

    ghost predicate Valid()
      reads this
    {
      tickerSideOrder.Length1 == 4
    }

    ghost function View(): (d: Desk)
      requires Valid()
      reads this, tickerSideOrder
      ensures |d.slots| == tickerSideOrder.Length0
    {
      Desk(seq(tickerSideOrder.Length0, t requires 0 <= t < tickerSideOrder.Length0 && Valid()
             reads this, tickerSideOrder => Pair(tickerSideOrder[t, 2], tickerSideOrder[t, 0])),
           nextOrderId)
    }

    constructor (clientId: nat, tickers: nat)
      ensures Valid() && fresh(tickerSideOrder) && this.clientId == clientId && outgoing == []
      ensures View() == Desk(seq(tickers, _ => Pair(Unused(Buy), Unused(Sell))), 1)
    {
      this.clientId := clientId;
      tickerSideOrder := new OMOrder[tickers, 4]((_, i) => Unused(if i == 2 then Buy else Sell));
      nextOrderId := 1;
      outgoing := [];
    }

    method OnOrderUpdate(r: Response)
      requires Valid() && r.ticker < tickerSideOrder.Length0
      modifies tickerSideOrder
      ensures View() == OnUpdate(old(View()), r)
    {
      var i := if r.CancelRejected? then 1 else SideIndex(r.side);
      var o := tickerSideOrder[r.ticker, i];
      match r {
        case Accepted(_, _, _, _, _, _, _) => tickerSideOrder[r.ticker, i] := o.(state := Live);
        case Canceled(_, _, _, _, _, _, _) => tickerSideOrder[r.ticker, i] := o.(state := Dead);
        case Filled(_, _, _, _, _, _, _, leaves) =>
          tickerSideOrder[r.ticker, i] := o.(qty := leaves);
          if leaves == 0 {
            tickerSideOrder[r.ticker, i] := tickerSideOrder[r.ticker, i].(state := Dead);
          }
        case CancelRejected(_, _, _) =>
      }
    }

    method SendNew(t: nat, price: int, side: Side, qty: nat)
      requires Valid() && t < tickerSideOrder.Length0
      modifies this, tickerSideOrder
      ensures var s := NewOrder(old(View()), clientId, t, price, side, qty);
              View() == s.desk && outgoing == old(outgoing) + s.reqs
    {
      outgoing := outgoing + [New(clientId, nextOrderId, t, side, price, qty)];
      tickerSideOrder[t, SideIndex(side)] := OMOrder(t, nextOrderId, side, price, qty, PendingNew);
      nextOrderId := nextOrderId + 1;
    }

    method SendCancel(t: nat, side: Side)
      requires Valid() && t < tickerSideOrder.Length0
      modifies this, tickerSideOrder
      ensures var s := CancelSlot(old(View()), clientId, t, side);
              View() == s.desk && outgoing == old(outgoing) + s.reqs
    {
      var o := tickerSideOrder[t, SideIndex(side)];
      outgoing := outgoing + [CancelOrder(clientId, o.coid, o.ticker)];
      tickerSideOrder[t, SideIndex(side)] := o.(state := PendingCancel);
    }

    method Move(t: nat, price: int, side: Side, qty: nat, cfg: RiskCfg, position: int, totalPnl: real)
      requires Valid() && t < tickerSideOrder.Length0
      modifies this, tickerSideOrder
      ensures var s := MoveOrder(old(View()), clientId, t, price, side, qty,
                                 CheckPreTradeRisk(cfg, position, totalPnl, side, qty));
              View() == s.desk && outgoing == old(outgoing) + s.reqs
    {
      var o := tickerSideOrder[t, SideIndex(side)];
      match o.state {
        case Live =>
          if o.price != price {
            SendCancel(t, side);
          }
        case Invalid =>
          SendIfAllowed(t, price, side, qty, cfg, position, totalPnl);
        case Dead =>
          SendIfAllowed(t, price, side, qty, cfg, position, totalPnl);
        case PendingNew =>
        case PendingCancel =>
      }
    }

    method SendIfAllowed(t: nat, price: int, side: Side, qty: nat, cfg: RiskCfg, position: int, totalPnl: real)
      requires Valid() && t < tickerSideOrder.Length0
      modifies this, tickerSideOrder
      ensures var allowed := price != PRICE_INVALID && CheckPreTradeRisk(cfg, position, totalPnl, side, qty) == Allowed;
              var s := if allowed then NewOrder(old(View()), clientId, t, price, side, qty) else Sent(old(View()), []);
              View() == s.desk && outgoing == old(outgoing) + s.reqs
    {
      if price != PRICE_INVALID {
        var risk := CheckPreTradeRisk(cfg, position, totalPnl, side, qty);
        if risk == Allowed {
          SendNew(t, price, side, qty);
        }
      }
    }

    /** The bid is moved before the ask. */
    method MoveOrders(t: nat, bid: int, ask: int, clip: nat, cfg: RiskCfg, position: int, totalPnl: real)
      requires Valid() && t < tickerSideOrder.Length0
      modifies this, tickerSideOrder
      ensures var first := MoveOrder(old(View()), clientId, t, bid, Buy, clip,
                                     CheckPreTradeRisk(cfg, position, totalPnl, Buy, clip));
              |first.desk.slots| == |old(View()).slots| &&
              var second := MoveOrder(first.desk, clientId, t, ask, Sell, clip,
                                      CheckPreTradeRisk(cfg, position, totalPnl, Sell, clip));
              View() == second.desk && outgoing == old(outgoing) + first.reqs + second.reqs
    {
      Move(t, bid, Buy, clip, cfg, position, totalPnl);
      Move(t, ask, Sell, clip, cfg, position, totalPnl);
    }
  }
}
