/**
  What the one-slot-per-side discipline buys over whole runs: responses always belong to the order in
  their slot, the position limit holds although the risk check ignores live orders, and a quiet system
  agrees with the exchange.
*/
module ClientSafety {
  import opened Types
  import opened PriceTime
  import opened Matching
  import opened OrderManagers
  import opened SlotTraces
  import opened ClientProtocol

  /** The state after a run of events, if each of them can happen. */
  ghost function Exec(c: Config, es: seq<Event>): Option<World> {
    if es == [] then Some(Initial(c))
    else
      match Exec(c, es[..|es| - 1])
      case None => None
      case Some(w) =>
        if Shaped(c, w) && Enabled(c, w, es[|es| - 1]) then Some(After(c, w, es[|es| - 1])) else None
  }

  lemma {:induction false} InitialInv(c: Config)
    ensures ProtocolInv(c, Initial(c))
  {
  }

  /** Over every interleaving, slots, channels and books stay in step. */
  lemma {:induction false} ProtocolHolds(c: Config, es: seq<Event>)
    requires Exec(c, es).Some?
    ensures ProtocolInv(c, Exec(c, es).value)
  {
    hide ProtocolInv;
    if es == [] {
      InitialInv(c);
    } else {
      ProtocolHolds(c, es[..|es| - 1]);
      StepKeepsInv(c, Exec(c, es[..|es| - 1]).value, es[|es| - 1]);
    }
  }

  /**
    Whatever response arrives next is about the order now in its slot, which is waiting for it, and
    continues that order's quantities: leaves is what was left minus what this fill executed.
  */
  lemma {:induction false} ResponsesBelong(c: Config, es: seq<Event>)
    requires Exec(c, es).Some? && Exec(c, es).value.inbox != [] && !Exec(c, es).value.inbox[0].CancelRejected?
    ensures var w := Exec(c, es).value;
            var r := w.inbox[0];
            r.client == c.me && r.ticker < |w.desk.slots| && Fits(SlotAt(w.desk, r.ticker, r.side), r)
  {
    ProtocolHolds(c, es);
    var w := Exec(c, es).value;
    var r := w.inbox[0];
    SlotInOrder(c, w, r.ticker, r.side);
    HeadFits(c, w, r.ticker, r.side);
  }

  /** A new order of this client on its way to this slot's side of the book. */
  predicate NewFor(r: Request, t: nat, side: Side) {
    r.New? && r.ticker == t && r.side == side
  }

  /** At most one order per slot is in flight or resting, and it is the one the slot names. */
  lemma {:induction false} OneOrderPerSlot(c: Config, es: seq<Event>, t: nat, side: Side, k: nat, r: Request)
    requires Exec(c, es).Some? && t < |c.risk|
    ensures var w := Exec(c, es).value;
            && t < |w.books| && t < |w.desk.slots|
            && var half, o := Half(w.books[t].book, side), SlotAt(w.desk, t, side);
               var resting := k < |half| && half[k].owner.client == c.me;
               && (resting ==>
                     half[k].owner.coid == o.coid
                     && forall j | 0 <= j < |half| && j != k :: half[j].owner.client != c.me)
               && (NewFor(r, t, side) && r in w.requests ==> r.coid == o.coid && w.requests[r] == 1 && !resting)
               && (forall q | q in w.requests && NewFor(q, t, side) && NewFor(r, t, side) && r in w.requests :: q == r)
  {
    ProtocolHolds(c, es);
    var w := Exec(c, es).value;
    SlotInOrder(c, w, t, side);
    var half, o := Half(w.books[t].book, side), SlotAt(w.desk, t, side);
    DrainKeeps(o, Arriving(c, w, t, side));
    BookHalfOk(c, w, t, side);
    if k < |half| && half[k].owner.client == c.me {
      forall j | 0 <= j < |half| && j != k ensures half[j].owner.client != c.me {
        assert if j < k then PairOk(half[j], half[k]) else PairOk(half[k], half[j]);
      }
    }
  }

  lemma {:induction false} BookHalfOk(c: Config, w: World, t: nat, side: Side)
    requires ProtocolInv(c, w) && t < |c.risk|
    ensures HalfOk(side, Half(w.books[t].book, side), w.books[t].nextId)
  {
    assert TickerOk(c, w, t);
  }

  // ---------------------------------------------------------------- position limit

  /** What a slot may still trade, as far as the client knows. */
  function Open(o: OMOrder): nat {
    if o.state.PendingNew? || Working(o) then o.qty else 0
  }

  predicate PositionOk(cfg: RiskCfg, position: int, p: Pair) {
    position + Open(p.buy) <= cfg.maxPosition && position - Open(p.sell) >= 0 - cfg.maxPosition
  }

  ghost predicate Positions(c: Config, w: World, t: nat) {
    Shaped(c, w) && t < |c.risk| && PositionOk(c.risk[t], w.position[t], w.desk.slots[t])
  }

  /** Limits that bind and that the 32-bit risk check respects; see RiskSoundExactly. */
  predicate Limited(cfg: RiskCfg) {
    cfg.maxPosition + cfg.maxOrder < TWO_31
  }

  /** A fill moves quantity from the slot to the position. */
  lemma {:induction false} FillKeepsPosition(cfg: RiskCfg, position: int, p: Pair, r: Response)
    requires cfg.maxPosition < TWO_31 && PositionOk(cfg, position, p) && !r.CancelRejected? && Fits(Slot(p, r.side), r)
    ensures PositionOk(cfg, Filled32(position, r), WithSlot(p, r.side, Updated(Slot(p, r.side), r)))
  {
  }

  lemma {:induction false} NewKeepsPosition(
      cfg: RiskCfg, position: int, p: Pair, side: Side, totalPnl: real, o: OMOrder)
    requires Limited(cfg) && PositionOk(cfg, position, p)
    requires CheckPreTradeRisk(cfg, position, totalPnl, side, o.qty) == Allowed
    ensures PositionOk(cfg, position, WithSlot(p, side, o))
  {
    AllowedWithin(cfg, position, totalPnl, side, o.qty);
  }

  lemma {:induction false} ReceiveKeepsPositions(c: Config, w: World, t: nat)
    requires ProtocolInv(c, w) && Positions(c, w, t) && Limited(c.risk[t]) && w.inbox != []
    ensures Positions(c, After(c, w, Receive), t)
  {
    ReceiveKeepsInv(c, w);
    var r := w.inbox[0];
    if !r.CancelRejected? && r.ticker == t {
      SlotInOrder(c, w, t, r.side);
      HeadFits(c, w, t, r.side);
      hide ProtocolInv, SlotOk, PositionOk;
      FillKeepsPosition(c.risk[t], w.position[t], w.desk.slots[t], r);
    }
  }

  /** A strategy call changes one slot at most, and only in one of two ways. */
  lemma {:induction false} StrategyEffect(c: Config, w: World, e: Event) returns (o': OMOrder)
    requires ProtocolInv(c, w) && e.Strategy? && e.ticker < |c.risk|
    ensures var w', t := After(c, w, e), e.ticker;
            && w'.position == w.position
            && w'.desk.slots == w.desk.slots[t := WithSlot(w.desk.slots[t], e.side, o')]
    ensures var o := SlotAt(w.desk, e.ticker, e.side);
            || o' == o
            || (o.state.Live? && o' == o.(state := PendingCancel))
            || (&& (o.state.Invalid? || o.state.Dead?) && o'.state.PendingNew? && o'.qty == e.qty
                && CheckPreTradeRisk(c.risk[e.ticker], w.position[e.ticker], e.totalPnl, e.side, e.qty) == Allowed)
  {
    var t, side := e.ticker, e.side;
    var o := SlotAt(w.desk, t, side);
    SlotInOrder(c, w, t, side);
    hide ProtocolInv, SlotOk, CheckPreTradeRisk;
    if !o.state.Invalid? {
      LiveTicker(c, w, t, side);
    }
    StrategyCases(c, w, e);
    hide After;
    o' := SlotAt(After(c, w, e).desk, t, side);
    assert WithSlot(w.desk.slots[t], side, o) == w.desk.slots[t];
  }

  lemma {:induction false} StrategyKeepsPositions(c: Config, w: World, e: Event, t: nat)
    requires ProtocolInv(c, w) && Positions(c, w, t) && Limited(c.risk[t]) && e.Strategy? && e.ticker < |c.risk|
    ensures Positions(c, After(c, w, e), t)
  {
    StrategyKeepsInv(c, w, e);
    var o' := StrategyEffect(c, w, e);
    assert Shaped(c, After(c, w, e));
    hide ProtocolInv, CheckPreTradeRisk, After, Shaped;
    if e.ticker == t && o'.state.PendingNew? && o' != SlotAt(w.desk, t, e.side) {
      NewKeepsPosition(c.risk[t], w.position[t], w.desk.slots[t], e.side, e.totalPnl, o');
    }
  }

  lemma {:induction false} StepKeepsPositions(c: Config, w: World, e: Event, t: nat)
    requires ProtocolInv(c, w) && Positions(c, w, t) && Limited(c.risk[t]) && Enabled(c, w, e)
    ensures Positions(c, After(c, w, e), t)
  {
    StepKeepsInv(c, w, e);
    match e
    case Strategy(_, _, _, _, _) => StrategyKeepsPositions(c, w, e, t);
    case Receive => ReceiveKeepsPositions(c, w, t);
    case _ =>
  }

  /**
    The position limit of every ticker, in every reachable state: position plus what the buy slot may still buy, and
    position minus what the sell slot may still sell, stay within the limit; so does the position.
  */
  lemma {:induction false} PositionLimit(c: Config, es: seq<Event>, t: nat)
    requires Exec(c, es).Some? && t < |c.risk| && Limited(c.risk[t])
    ensures Positions(c, Exec(c, es).value, t)
    ensures Within(c.risk[t].maxPosition, Exec(c, es).value.position[t])
  {
    if es == [] {
      InitialInv(c);
    } else {
      PositionLimit(c, es[..|es| - 1], t);
      ProtocolHolds(c, es[..|es| - 1]);
      StepKeepsPositions(c, Exec(c, es[..|es| - 1]).value, es[|es| - 1], t);
    }
  }

  /** Positions are 32-bit throughout. */
  lemma {:induction false} Position32(c: Config, es: seq<Event>, t: nat)
    requires Exec(c, es).Some? && t < |c.risk|
    ensures var w := Exec(c, es).value; t < |w.position| && -TWO_31 <= w.position[t] < TWO_31
  {
    ProtocolHolds(c, es);
    if es != [] {
      Position32(c, es[..|es| - 1], t);
      hide ProtocolInv, Process, MoveOrder, Wrap32;
    }
  }

  // ---------------------------------------------------------------- what the strategy can cause

  /** An order within all three limits, on a slot with none of its own. */
  ghost predicate MaySend(c: Config, w: World, e: Event)
    requires Shaped(c, w) && e.Strategy? && e.ticker < |c.risk|
  {
    var o, cfg := SlotAt(w.desk, e.ticker, e.side), c.risk[e.ticker];
    && (o.state.Invalid? || o.state.Dead?) && e.price != PRICE_INVALID
    && e.qty <= cfg.maxOrder && e.totalPnl >= cfg.maxLoss
    && Within(cfg.maxPosition, w.position[e.ticker] + SideValue(e.side) * e.qty)
  }

  /** A live order at another price. */
  ghost predicate MayCancel(w: World, e: Event)
    requires e.Strategy? && e.ticker < |w.desk.slots|
  {
    var o := SlotAt(w.desk, e.ticker, e.side); o.state.Live? && o.price != e.price
  }

  /** The request a strategy call leads to, if any. */
  ghost function Wanted(c: Config, w: World, e: Event): multiset<Request>
    requires Shaped(c, w) && e.Strategy? && e.ticker < |c.risk|
  {
    if MaySend(c, w, e) then multiset{New(c.me, w.desk.next, e.ticker, e.side, e.price, e.qty)}
    else if MayCancel(w, e) then multiset{CancelOrder(c.me, SlotAt(w.desk, e.ticker, e.side).coid, e.ticker)}
    else multiset{}
  }

  /** What becomes of the slot; ids are handed out one by one. */
  ghost function Changed(c: Config, w: World, e: Event): Desk
    requires Shaped(c, w) && e.Strategy? && e.ticker < |c.risk|
  {
    var o, n := SlotAt(w.desk, e.ticker, e.side), w.desk.next;
    if MaySend(c, w, e) then
      Put(w.desk, e.ticker, e.side, OMOrder(e.ticker, n, e.side, e.price, e.qty, PendingNew)).(next := n + 1)
    else if MayCancel(w, e) then Put(w.desk, e.ticker, e.side, o.(state := PendingCancel))
    else w.desk
  }

  /**
    In every reachable state, a strategy call sends a NEW exactly when the slot is idle, the price valid and the order
    within order limit, position limit and loss limit; a CANCEL exactly when the slot is live at another price; and
    nothing otherwise. In particular nothing new is sent on a ticker whose total profit is below its loss limit.
  */
  lemma {:induction false} SentExactly(c: Config, es: seq<Event>, e: Event)
    requires Exec(c, es).Some? && e.Strategy? && e.ticker < |c.risk| && Limited(c.risk[e.ticker])
    ensures var w := Exec(c, es).value;
            && Shaped(c, w) && Enabled(c, w, e)
            && After(c, w, e) == w.(requests := w.requests + Wanted(c, w, e), desk := Changed(c, w, e))
  {
    hide Exec, Positions, Enabled, After, Wanted, Changed;
    ProtocolHolds(c, es);
    PositionLimit(c, es, e.ticker);
    var w := Exec(c, es).value;
    NamesTicker(c, w, e.ticker, e.side);
    assert Shaped(c, w);
    hide ProtocolInv;
    SentBy(c, w, e);
  }

  lemma {:induction false} NamesTicker(c: Config, w: World, t: nat, side: Side)
    requires ProtocolInv(c, w) && t < |c.risk|
    ensures var o := SlotAt(w.desk, t, side); !o.state.Invalid? ==> o.ticker == t
  {
    SlotInOrder(c, w, t, side);
  }

  lemma {:induction false} SentBy(c: Config, w: World, e: Event)
    requires Shaped(c, w) && e.Strategy? && e.ticker < |c.risk| && Limited(c.risk[e.ticker])
    requires var o := SlotAt(w.desk, e.ticker, e.side); !o.state.Invalid? ==> o.ticker == e.ticker
    requires Within(c.risk[e.ticker].maxPosition, w.position[e.ticker])
    ensures Enabled(c, w, e)
    ensures After(c, w, e) == w.(requests := w.requests + Wanted(c, w, e), desk := Changed(c, w, e))
  {
    assert |w.position| == |w.desk.slots| == |c.risk|;
    hide CheckPreTradeRisk, Shaped;
    RiskExactly(c.risk[e.ticker], w.position[e.ticker], e.totalPnl, e.side, e.qty);
    MoveExactly(c, w, e);
    assert w.requests + multiset{} == w.requests;
    hide MoveOrder, Wanted, Changed;
  }

  lemma {:induction false} MoveExactly(c: Config, w: World, e: Event)
    requires Shaped(c, w) && e.Strategy? && e.ticker < |c.risk|
    requires var o := SlotAt(w.desk, e.ticker, e.side); !o.state.Invalid? ==> o.ticker == e.ticker
    requires Deserves(c.risk[e.ticker], w.position[e.ticker], e.totalPnl, e.side, e.qty,
                      CheckPreTradeRisk(c.risk[e.ticker], w.position[e.ticker], e.totalPnl, e.side, e.qty))
    ensures multiset(Moved(c, w, e).reqs) == Wanted(c, w, e) && Moved(c, w, e).desk == Changed(c, w, e)
  {
    hide CheckPreTradeRisk;
  }

  /** Below the loss limit nothing new is sent, whatever the limits are. */
  lemma {:induction false} LossStops(c: Config, w: World, e: Event)
    requires Shaped(c, w) && e.Strategy? && e.ticker < |c.risk| && e.totalPnl < c.risk[e.ticker].maxLoss
    ensures forall r | r in After(c, w, e).requests && r.New? :: After(c, w, e).requests[r] == w.requests[r]
  {
    assert |w.position| == |w.desk.slots| == |c.risk|;
    hide Shaped;
    assert !CheckPreTradeRisk(c.risk[e.ticker], w.position[e.ticker], e.totalPnl, e.side, e.qty).Allowed?;
    hide CheckPreTradeRisk;
  }

  // ---------------------------------------------------------------- quiet states

  predicate Quiet(w: World) {
    w.requests == multiset{} && w.inbox == []
  }

  /** With nothing in flight, each slot says what rests, and only an order of quantity zero still waits. */
  lemma {:induction false} QuietAgreement(c: Config, es: seq<Event>, t: nat, side: Side)
    requires Exec(c, es).Some? && Quiet(Exec(c, es).value) && t < |c.risk|
    ensures var w := Exec(c, es).value;
            && t < |w.books| && t < |w.desk.slots|
            && var o := SlotAt(w.desk, t, side);
               && !o.state.PendingNew? && (o.state.PendingCancel? ==> o.qty == 0)
               && Rests(Half(w.books[t].book, side), c.me, o.coid, Leaves(o))
  {
    ProtocolHolds(c, es);
    var w := Exec(c, es).value;
    SlotInOrder(c, w, t, side);
    assert Settled(c, w, t, side) == SlotAt(w.desk, t, side);
  }

  /** A slot that may still trade has a positive quantity. */
  predicate Positive(o: OMOrder) {
    Open(o) > 0 || o.state.Invalid? || o.state.Dead?
  }

  ghost predicate TickerPositive(c: Config, w: World, t: nat) {
    Shaped(c, w) && t < |c.risk| && Positive(SlotAt(w.desk, t, Buy)) && Positive(SlotAt(w.desk, t, Sell))
  }

  /** The strategy never asks for less than this on this ticker. */
  ghost predicate ClipsFrom(es: seq<Event>, t: nat, least: nat) {
    forall i | 0 <= i < |es| :: es[i].Strategy? && es[i].ticker == t ==> es[i].qty >= least
  }

  lemma {:induction false} StepKeepsPositive(c: Config, w: World, e: Event, t: nat)
    requires ProtocolInv(c, w) && TickerPositive(c, w, t) && Enabled(c, w, e)
    requires e.Strategy? && e.ticker == t ==> e.qty > 0
    ensures TickerPositive(c, After(c, w, e), t)
  {
    StepKeepsInv(c, w, e);
    if e.Receive? {
      ReceivePositive(c, w, t, Buy);
      ReceivePositive(c, w, t, Sell);
    } else if e.Strategy? {
      var o' := StrategyEffect(c, w, e);
      assert Shaped(c, After(c, w, e));
      hide ProtocolInv, After, Shaped, CheckPreTradeRisk;
    }
  }

  lemma {:induction false} ReceivePositive(c: Config, w: World, t: nat, side: Side)
    requires ProtocolInv(c, w) && t < |c.risk| && w.inbox != [] && Positive(SlotAt(w.desk, t, side))
    ensures var d := OnUpdate(w.desk, w.inbox[0]); t < |d.slots| && Positive(SlotAt(d, t, side))
  {
    SlotInOrder(c, w, t, side);
    hide ProtocolInv, SlotOk;
    ReceivedSlot(c, w, t, side);
    hide OnUpdate;
    if IsFor(w.inbox[0], c.me, t, side) {
      HeadFits(c, w, t, side);
    }
  }

  lemma {:induction false} PositiveHolds(c: Config, es: seq<Event>, t: nat)
    requires Exec(c, es).Some? && t < |c.risk| && ClipsFrom(es, t, 1)
    ensures TickerPositive(c, Exec(c, es).value, t)
  {
    if es != [] {
      PositiveHolds(c, es[..|es| - 1], t);
      ProtocolHolds(c, es[..|es| - 1]);
      hide ProtocolInv, TickerPositive;
      StepKeepsPositive(c, Exec(c, es[..|es| - 1]).value, es[|es| - 1], t);
    }
  }

  /** With positive clips a quiet slot is live with exactly its order resting, or idle with nothing resting. */
  lemma {:induction false} QuietWithPositiveClips(c: Config, es: seq<Event>, t: nat, side: Side)
    requires Exec(c, es).Some? && Quiet(Exec(c, es).value) && t < |c.risk| && ClipsFrom(es, t, 1)
    ensures var w := Exec(c, es).value;
            && t < |w.books| && t < |w.desk.slots|
            && var o, half := SlotAt(w.desk, t, side), Half(w.books[t].book, side);
               || (o.state.Live? && o.qty > 0 && Rests(half, c.me, o.coid, o.qty))
               || ((o.state.Invalid? || o.state.Dead?) && Rests(half, c.me, o.coid, 0))
  {
    QuietAgreement(c, es, t, side);
    PositiveHolds(c, es, t);
  }

  // ---------------------------------------------------------------- slots in use

  /** INVALID is the state of a slot that never held an order, and of no other. */
  lemma {:induction false} UsedForGood(c: Config, es: seq<Event>, e: Event, t: nat, side: Side)
    requires Exec(c, es).Some? && t < |c.risk|
    requires Shaped(c, Exec(c, es).value) && Enabled(c, Exec(c, es).value, e)
    ensures var w, w' := Exec(c, es).value, After(c, Exec(c, es).value, e);
            && t < |w.desk.slots| && t < |w'.desk.slots|
            && var o, o' := SlotAt(w.desk, t, side), SlotAt(w'.desk, t, side);
               && (o.state.Invalid? ==> o == Unused(side))
               && (!o.state.Invalid? ==> !o'.state.Invalid?)
               && (o'.state.Invalid? ==> o' == o)
  {
    ProtocolHolds(c, es);
    FreshSlot(c, es, t, side);
    StepSlot(c, Exec(c, es).value, e, t, side);
  }

  lemma {:induction false} FreshSlot(c: Config, es: seq<Event>, t: nat, side: Side)
    requires Exec(c, es).Some? && t < |c.risk|
    ensures var w := Exec(c, es).value;
            t < |w.desk.slots| && (SlotAt(w.desk, t, side).state.Invalid? ==> SlotAt(w.desk, t, side) == Unused(side))
  {
    if es != [] {
      var before := es[..|es| - 1];
      FreshSlot(c, before, t, side);
      ProtocolHolds(c, before);
      hide ProtocolInv, SlotAt, After, Enabled;
      StepSlot(c, Exec(c, before).value, es[|es| - 1], t, side);
    }
  }

  lemma {:induction false} StepSlot(c: Config, w: World, e: Event, t: nat, side: Side)
    requires ProtocolInv(c, w) && t < |c.risk| && Enabled(c, w, e)
    ensures var d, d' := w.desk, After(c, w, e).desk;
            && t < |d.slots| == |d'.slots|
            && (SlotAt(d', t, side).state.Invalid? ==> SlotAt(d', t, side) == SlotAt(d, t, side))
  {
    if e.Receive? {
      SlotInOrder(c, w, t, side);
      hide ProtocolInv, SlotOk;
      ReceivedSlot(c, w, t, side);
      hide OnUpdate;
      if IsFor(w.inbox[0], c.me, t, side) {
        HeadFits(c, w, t, side);
      }
    } else if e.Strategy? {
      var o' := StrategyEffect(c, w, e);
      hide ProtocolInv, After, CheckPreTradeRisk;
    } else {
      hide ProtocolInv, Process;
    }
  }

  // ---------------------------------------------------------------- an order of quantity zero

  predicate Stranded(o: OMOrder) {
    o.state.PendingCancel? && o.qty == 0
  }

  /** No event ever frees a slot that waits for the cancel of an order of quantity zero. */
  lemma {:induction false} StrandedForGood(c: Config, w: World, e: Event, t: nat, side: Side)
    requires ProtocolInv(c, w) && Enabled(c, w, e) && t < |c.risk| && Stranded(SlotAt(w.desk, t, side))
    ensures t < |After(c, w, e).desk.slots| && SlotAt(After(c, w, e).desk, t, side) == SlotAt(w.desk, t, side)
  {
    if e.Receive? {
      StrandedReceive(c, w, t, side);
      hide ProtocolInv, OnUpdate;
    } else if e.Strategy? {
      var o' := StrategyEffect(c, w, e);
      hide ProtocolInv, After, CheckPreTradeRisk;
    } else {
      hide ProtocolInv, Process;
    }
  }

  lemma {:induction false} StrandedReceive(c: Config, w: World, t: nat, side: Side)
    requires ProtocolInv(c, w) && w.inbox != [] && t < |c.risk| && Stranded(SlotAt(w.desk, t, side))
    ensures var d := OnUpdate(w.desk, w.inbox[0]); t < |d.slots| && SlotAt(d, t, side) == SlotAt(w.desk, t, side)
  {
    SlotInOrder(c, w, t, side);
    hide ProtocolInv, SlotOk;
    ReceivedSlot(c, w, t, side);
    hide OnUpdate;
    if IsFor(w.inbox[0], c.me, t, side) {
      HeadFits(c, w, t, side);
    }
  }

  lemma {:induction false} ExecTo(c: Config, es: seq<Event>, w: World, e: Event, w': World)
    requires Exec(c, es) == Some(w) && Shaped(c, w) && Enabled(c, w, e) && After(c, w, e) == w'
    ensures Exec(c, es + [e]) == Some(w')
  {
    hide Enabled, After, Shaped;
    assert (es + [e])[..|es|] == es;
  }
}
