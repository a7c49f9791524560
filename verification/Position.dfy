/**
  Position and profit accounting of the trading client, over exact reals. Positions are 32-bit, and so
  are the products the code uses to recognise a position that flips its sign.
*/
module Positions {
  import opened Types
  import opened OrderManagers

  /** `buyCost` and `sellCost` are the two entries of `open_vwap_`: quantity-weighted open prices. */
  datatype Info = Info(
    position: int, realPnl: real, unrealPnl: real, totalPnl: real, buyCost: real, sellCost: real, volume: nat)

  const FLAT: Info := Info(0, 0.0, 0.0, 0.0, 0.0, 0.0, 0)

  function Cost(p: Info, side: Side): real {
    if side.Buy? then p.buyCost else p.sellCost
  }

  function WithCost(p: Info, side: Side, x: real): Info {
    if side.Buy? then p.(buyCost := x) else p.(sellCost := x)
  }

  function R(x: int): real {
    x as real
  }

  function MinInt(a: int, b: int): int {
    if a <= b then a else b
  }

  predicate Int32(x: int) {
    -TWO_31 <= x < TWO_31
  }

  function Amount(price: real, qty: real): real {
    price * qty
  }

  function Average(cost: real, n: int): real
    requires n != 0
  {
    cost / R(n)
  }

  /** Profit realised by closing `n` of a position. */
  function Gain(n: int, average: real, price: int, sv: int): real {
    R(n) * (average - R(price)) * R(sv)
  }

  /** Unrealised profit of `n` long or short at a price. */
  function MarkLong(price: real, cost: real, n: int): real
    requires n != 0
  {
    (price - cost / R(n)) * R(n)
  }

  function MarkShort(price: real, cost: real, n: int): real
    requires n != 0
  {
    (cost / R(n) - price) * R(n)
  }

  /** Cost basis and realised profit after a fill that works against the open position. */
  function Reduced(p: Info, side: Side, price: int, exec: nat, position: int): Info
    requires p.position != 0 && Int32(p.position)
  {
    var was, opp := p.position, Opposite(side);
    var average := Average(Cost(p, opp), Abs32(was));
    var q := WithCost(p, opp, Amount(average, R(Abs32(position))))
             .(realPnl := p.realPnl + Gain(MinInt(Wrap32(exec), Abs32(was)), average, price, SideValue(side)));
    if Wrap32(position * was) < 0
    then WithCost(WithCost(q, side, Amount(R(price), R(Abs32(position)))), opp, 0.0)
    else q
  }

  function Mark(p: Info, price: real): real
    requires p.position != 0 && Int32(p.position)
  {
    if p.position > 0
    then MarkLong(price, p.buyCost, Abs32(p.position))
    else MarkShort(price, p.sellCost, Abs32(p.position))
  }

  /** The last part of a fill: close the books on a flat position, mark an open one. */
  function Marked(r: Info, price: real): Info
    requires Int32(r.position)
  {
    var s := if r.position == 0 then r.(buyCost := 0.0, sellCost := 0.0, unrealPnl := 0.0)
             else r.(unrealPnl := Mark(r, price));
    s.(totalPnl := s.unrealPnl + s.realPnl)
  }

  /** Position, volume, cost basis and realised profit after a fill, before it is marked. */
  function Booked(p: Info, side: Side, price: int, exec: nat): (q: Info)
    requires Int32(p.position)
    ensures Int32(q.position)
  {
    var sv := SideValue(side);
    var position := Wrap32(p.position + exec * sv);
    var q := if Wrap32(p.position * sv) >= 0 then WithCost(p, side, Cost(p, side) + Amount(R(price), R(exec)))
             else Reduced(p, side, price, exec, position);
    q.(position := position, volume := (p.volume + exec) % TWO_32)
  }

  function Fill(p: Info, side: Side, price: int, exec: nat): Info
    requires Int32(p.position)
  {
    Marked(Booked(p, side, price, exec), R(price))
  }

  /** A change of the best bid and offer. */
  function Quote(p: Info, bid: int, ask: int): Info
    requires Int32(p.position)
  {
    if p.position != 0 && bid != PRICE_INVALID && ask != PRICE_INVALID then
      var u := Mark(p, R(bid + ask) * 0.5);
      p.(unrealPnl := u, totalPnl := u + p.realPnl)
    else p
  }

  class PositionInfo {
    var position: int
    var realPnl: real
    var unrealPnl: real
    var totalPnl: real
    const openVwap: array<real>
    var volume: nat

    ghost predicate Valid()
      reads this
    {
      openVwap.Length == 4 && Int32(position)
    }

    ghost function View(): Info
      requires Valid()
      reads this, openVwap
    {
      Info(position, realPnl, unrealPnl, totalPnl, openVwap[SideIndex(Buy)], openVwap[SideIndex(Sell)], volume)
    }

    /** The cost basis starts at zero. */
    constructor ()
      ensures Valid() && fresh(openVwap) && View() == FLAT
    {
      position, realPnl, unrealPnl, totalPnl, volume := 0, 0.0, 0.0, 0.0, 0;
      openVwap := new real[4](_ => 0.0);
    }

    method AddFill(side: Side, price: int, exec: nat)
      requires Valid()
      modifies this, openVwap
      ensures Valid() && View() == Fill(old(View()), side, price, exec)
    {
      hide Wrap32, Amount, Average, Gain, MarkLong, MarkShort;
      var oldPosition := position;
      var own, opp, sv := SideIndex(side), SideIndex(Opposite(side)), SideValue(side);
      position := Wrap32(position + exec * sv);
      volume := (volume + exec) % TWO_32;
      if Wrap32(oldPosition * sv) >= 0 {
        openVwap[own] := openVwap[own] + Amount(R(price), R(exec));
      } else {
        var average := Average(openVwap[opp], Abs32(oldPosition));
        openVwap[opp] := Amount(average, R(Abs32(position)));
        realPnl := realPnl + Gain(MinInt(Wrap32(exec), Abs32(oldPosition)), average, price, sv);
        if Wrap32(position * oldPosition) < 0 {
          openVwap[own] := Amount(R(price), R(Abs32(position)));
          openVwap[opp] := 0.0;
        }
      }
      hide Marked;
      assert View() == Booked(old(View()), side, price, exec);
      MarkToFill(price);
    }

    /** Closes the books on a flat position and marks an open one at the fill price. */
    method MarkToFill(price: int)
      requires Valid()
      modifies this, openVwap
      ensures Valid() && View() == Marked(old(View()), R(price))
    {
      hide Amount, Average, Gain, MarkLong, MarkShort;
      if position == 0 {
        openVwap[SideIndex(Buy)] := 0.0;
        openVwap[SideIndex(Sell)] := 0.0;
        unrealPnl := 0.0;
      } else if position > 0 {
        unrealPnl := MarkLong(R(price), openVwap[SideIndex(Buy)], Abs32(position));
      } else {
        unrealPnl := MarkShort(R(price), openVwap[SideIndex(Sell)], Abs32(position));
      }
      totalPnl := unrealPnl + realPnl;
    }

    method UpdateBBO(bid: int, ask: int)
      requires Valid()
      modifies this
      ensures Valid() && View() == Quote(old(View()), bid, ask)
    {
      if position != 0 && bid != PRICE_INVALID && ask != PRICE_INVALID {
        var mid := R(bid + ask) * 0.5;
        if position > 0 {
          unrealPnl := MarkLong(mid, openVwap[SideIndex(Buy)], Abs32(position));
        } else {
          unrealPnl := MarkShort(mid, openVwap[SideIndex(Sell)], Abs32(position));
        }
        totalPnl := unrealPnl + realPnl;
      }
    }
  }

  // ---------------------------------------------------------------- the ledger

  predicate InRange(x: int) {
    -TWO_31 < x < TWO_31
  }

  /** What the cost basis and the realised profit should be, given all cash paid and received. */
  predicate Consistent(p: Info, cash: real) {
    && InRange(p.position)
    && (p.position > 0 ==> p.sellCost == 0.0 && p.realPnl == cash + p.buyCost)
    && (p.position < 0 ==> p.buyCost == 0.0 && p.realPnl == cash - p.sellCost)
    && (p.position == 0 ==> p.buyCost == 0.0 && p.sellCost == 0.0 && p.realPnl == cash)
  }

  /** Cash received for a fill. */
  function Paid(side: Side, price: int, exec: nat): real {
    if side.Buy? then 0.0 - Amount(R(price), R(exec)) else Amount(R(price), R(exec))
  }

  function Target(p: Info, side: Side, exec: nat): int {
    if side.Buy? then p.position + exec else p.position - exec
  }

  lemma {:induction false} TargetIs(p: Info, side: Side, exec: nat)
    requires InRange(p.position) && InRange(Target(p, side, exec))
    ensures Wrap32(p.position + exec * SideValue(side)) == Target(p, side, exec)
    ensures Wrap32(p.position * SideValue(side)) >= 0 <==> !Reduces(p, side)
  {
  }

  function Size(x: int): nat {
    if x < 0 then -x else x
  }

  predicate Reduces(p: Info, side: Side) {
    if side.Buy? then p.position < 0 else p.position > 0
  }

  /** Whether the position changes sign, and whether the 32-bit product says so. */
  predicate Flips(p: Info, side: Side, exec: nat) {
    Reduces(p, side) && exec > Size(p.position)
  }

  predicate SaysFlip(p: Info, side: Side, exec: nat) {
    Wrap32(Target(p, side, exec) * p.position) < 0
  }

  /** By how much a fill's total profit misses the ledger. */
  function Defect(p: Info, side: Side, price: int, exec: nat): real {
    if !Reduces(p, side) then 0.0
    else
      var n, m, sv := Size(p.position), Size(Target(p, side, exec)), SideValue(side);
      var average := Average(Cost(p, Opposite(side)), n);
      var cast := Gain(MinInt(Wrap32(exec), n) - MinInt(exec, n), average, price, sv);
      if SaysFlip(p, side, exec) == Flips(p, side, exec) then cast
      else if Flips(p, side, exec) then cast - Paid(side, price, m)
      else if side.Buy? then cast - Amount(average, R(m)) else cast + Amount(average, R(m))
  }

  lemma {:induction false} AmountNegated(price: real, n: int)
    ensures Amount(price, R(-n)) == 0.0 - Amount(price, R(n))
  {
  }

  lemma {:induction false} AmountZero(price: real)
    ensures Amount(price, R(0)) == 0.0
  {
  }

  /** Splitting a gain into the part that should be realised and the rest. */
  lemma {:induction false} GainSplit(a: int, b: int, average: real, price: int, sv: int)
    ensures Gain(a, average, price, sv) == Gain(b, average, price, sv) + Gain(a - b, average, price, sv)
  {
  }

  /** Total profit of a marked position, with the divisions carried out. */
  lemma {:induction false} TotalIs(q: Info, price: int)
    requires InRange(q.position)
    ensures Marked(q, R(price)).totalPnl
         == if q.position > 0 then q.realPnl + Amount(R(price), R(q.position)) - q.buyCost
            else if q.position < 0 then q.realPnl + Amount(R(price), R(q.position)) + q.sellCost
            else q.realPnl
  {
  }

  /** Closing `exec` of `n`: realised profit when the closed quantity is counted without truncation. */
  lemma {:induction false} RealisedPart(cost: real, n: int, exec: int, price: int)
    requires 0 < n && 0 <= exec <= n
    ensures var a := Average(cost, n);
            && cost + Gain(exec, a, price, -1) == Amount(R(price), R(exec)) + Amount(a, R(n - exec))
            && Gain(exec, a, price, 1) - cost == 0.0 - Amount(R(price), R(exec)) - Amount(a, R(n - exec))
  {
  }

  /** Closing all of `n` on the way to the other side. */
  lemma {:induction false} RealisedAll(cost: real, n: int, exec: int, price: int)
    requires 0 < n <= exec
    ensures var a := Average(cost, n);
            && cost + Gain(n, a, price, -1) == Amount(R(price), R(exec)) - Amount(R(price), R(exec - n))
            && Gain(n, a, price, 1) - cost == Amount(R(price), R(exec - n)) - Amount(R(price), R(exec))
  {
  }

  /** What the ledger says a fill at this price should make of the total. */
  function Worth(cash: real, position: int, price: real): real {
    cash + Amount(price, R(position))
  }

  /** A fill that opens or increases a position. */
  lemma {:induction false} IncreaseTotal(p: Info, side: Side, price: int, exec: nat, cash: real)
    requires Consistent(p, cash) && !Reduces(p, side) && InRange(Target(p, side, exec))
    ensures var p' := Fill(p, side, price, exec);
            && p'.position == Target(p, side, exec)
            && p'.totalPnl == Worth(cash + Paid(side, price, exec), p'.position, R(price))
            && Consistent(p', cash + Paid(side, price, exec))
  {
    TargetIs(p, side, exec);
    hide Wrap32, MarkLong, MarkShort, Amount, SideValue;
    var q := Booked(p, side, price, exec);
    TotalIs(q, price);
    AmountZero(R(price));
  }

  /** What a fill against the open position books, whatever the flip test says. */
  lemma {:induction false} ReduceBooked(p: Info, side: Side, price: int, exec: nat, cash: real)
    requires Consistent(p, cash) && Reduces(p, side) && InRange(Target(p, side, exec))
    ensures var q := Booked(p, side, price, exec);
            var n, m, opp := Size(p.position), Size(Target(p, side, exec)), Opposite(side);
            var average := Average(Cost(p, opp), n);
            && q.position == Target(p, side, exec)
            && q.realPnl == p.realPnl + Gain(MinInt(exec, n), average, price, SideValue(side))
                            + Gain(MinInt(Wrap32(exec), n) - MinInt(exec, n), average, price, SideValue(side))
            && Cost(q, side) == (if SaysFlip(p, side, exec) then Amount(R(price), R(m)) else 0.0)
            && Cost(q, opp) == (if SaysFlip(p, side, exec) then 0.0 else Amount(average, R(m)))
  {
    var n, opp := Size(p.position), Opposite(side);
    var average := Average(Cost(p, opp), n);
    GainSplit(MinInt(Wrap32(exec), n), MinInt(exec, n), average, price, SideValue(side));
    TargetIs(p, side, exec);
    hide Gain, Average, Amount, Wrap32, SideValue;
    assert Abs32(p.position) == n;
    assert Abs32(Target(p, side, exec)) == Size(Target(p, side, exec));
  }

  /** A fill against the open position: the ledger, and what is added to it. */
  lemma {:induction false} ReduceTotal(p: Info, side: Side, price: int, exec: nat, cash: real)
    requires Consistent(p, cash) && Reduces(p, side) && InRange(Target(p, side, exec))
    ensures var p' := Fill(p, side, price, exec);
            && p'.position == Target(p, side, exec)
            && p'.totalPnl
               == Worth(cash + Paid(side, price, exec), p'.position, R(price)) + Defect(p, side, price, exec)
            && (exec < TWO_31 && SaysFlip(p, side, exec) == Flips(p, side, exec) ==>
                  Consistent(p', cash + Paid(side, price, exec)))
  {
    var n, opp := Size(p.position), Opposite(side);
    var m := Size(Target(p, side, exec));
    var average := Average(Cost(p, opp), n);
    var q := Booked(p, side, price, exec);
    ReduceBooked(p, side, price, exec, cash);
    TotalIs(q, price);
    AmountZero(R(price));
    AmountZero(average);
    AmountNegated(R(price), m);
    GainNothing(average, price, SideValue(side));
    assert m == 0 ==> !SaysFlip(p, side, exec);
    hide Average, Amount, Gain, MarkLong, MarkShort, Wrap32, Booked;
    if exec <= n {
      RealisedPart(Cost(p, opp), n, exec, price);
    } else {
      RealisedAll(Cost(p, opp), n, exec, price);
    }
  }

  lemma {:induction false} GainNothing(average: real, price: int, sv: int)
    ensures Gain(0, average, price, sv) == 0.0
  {
  }

  /**
    The ledger with its exact error: after any fill that keeps the position in 32 bits, total profit is net
    cash plus position times fill price plus `Defect`.
  */
  lemma {:induction false} FillTotal(p: Info, side: Side, price: int, exec: nat, cash: real)
    requires Consistent(p, cash) && InRange(Target(p, side, exec))
    ensures var p' := Fill(p, side, price, exec);
            && p'.position == Target(p, side, exec)
            && p'.totalPnl
               == Worth(cash + Paid(side, price, exec), p'.position, R(price)) + Defect(p, side, price, exec)
  {
    hide Fill, Worth;
    if Reduces(p, side) {
      ReduceTotal(p, side, price, exec, cash);
    } else {
      IncreaseTotal(p, side, price, exec, cash);
    }
  }

  /** The guard under which nothing in `addFill` overflows. */
  predicate Safe(p: Info, side: Side, exec: nat) {
    InRange(Target(p, side, exec)) && exec < TWO_31 && InRange(Target(p, side, exec) * p.position)
  }

  lemma {:induction false} ProductSign(a: int, b: int)
    requires InRange(a * b)
    ensures Wrap32(a * b) < 0 <==> (a < 0 < b || b < 0 < a)
  {
  }

  /** Inside the guard every fill is exact and leaves the books consistent. */
  lemma {:induction false} SafeFill(p: Info, side: Side, price: int, exec: nat, cash: real)
    requires Consistent(p, cash) && Safe(p, side, exec)
    ensures var p' := Fill(p, side, price, exec);
            && p'.position == Target(p, side, exec)
            && p'.totalPnl == Worth(cash + Paid(side, price, exec), p'.position, R(price))
            && Consistent(p', cash + Paid(side, price, exec))
  {
    ProductSign(Target(p, side, exec), p.position);
    hide Fill, Worth, Consistent, Paid, Average, Amount, Gain;
    if Reduces(p, side) {
      GainNothing(Average(Cost(p, Opposite(side)), Size(p.position)), price, SideValue(side));
      ReduceTotal(p, side, price, exec, cash);
    } else {
      IncreaseTotal(p, side, price, exec, cash);
    }
  }

  /**
    Whether total profit meets the ledger, read off the inputs. Below 2^31 only a flip test with the wrong sign spoils
    a fill, except for a missed flip at price zero and a false flip of a position that cost nothing. From 2^31 on the
    cast quantity is negative, and the fill is exact only by coincidence of price and average.
  */
  predicate Exact(p: Info, side: Side, price: int, exec: nat) {
    !Reduces(p, side) ||
    if exec < TWO_31 then
      || Target(p, side, exec) == 0
      || SaysFlip(p, side, exec) == Flips(p, side, exec)
      || (if Flips(p, side, exec) then price == 0 else Cost(p, Opposite(side)) == 0.0)
    else
      var n, m := Size(p.position), Size(Target(p, side, exec));
      var excess := Average(Cost(p, Opposite(side)), n) - R(price);
      if SaysFlip(p, side, exec) then excess == 0.0
      else Amount(excess, R(TWO_32 - exec + n)) == Amount(R(price), R(m))
  }

  /** For every fill that keeps the position in 32 bits: exact if and only if `Exact`. */
  lemma {:induction false} ExactIff(p: Info, side: Side, price: int, exec: nat, cash: real)
    requires Consistent(p, cash) && InRange(Target(p, side, exec)) && exec < TWO_32
    ensures var p' := Fill(p, side, price, exec);
            p'.totalPnl == Worth(cash + Paid(side, price, exec), p'.position, R(price)) <==> Exact(p, side, price, exec)
  {
    FillTotal(p, side, price, exec, cash);
    hide Fill, Worth;
    if Reduces(p, side) {
      if exec < TWO_31 {
        SmallDefect(p, side, price, exec);
      } else {
        LargeDefect(p, side, price, exec);
      }
      hide Defect, Exact;
    }
  }

  lemma {:induction false} SmallDefect(p: Info, side: Side, price: int, exec: nat)
    requires InRange(p.position) && InRange(Target(p, side, exec)) && exec < TWO_31 && Reduces(p, side)
    ensures Defect(p, side, price, exec) == 0.0 <==> Exact(p, side, price, exec)
  {
    var n, m := Size(p.position), Size(Target(p, side, exec));
    var average := Average(Cost(p, Opposite(side)), n);
    GainNothing(average, price, SideValue(side));
    AmountZeroIff(R(price), m);
    AmountZeroIff(average, m);
    AverageZeroIff(Cost(p, Opposite(side)), n);
    hide Amount, Gain, Average;
  }

  lemma {:induction false} LargeDefect(p: Info, side: Side, price: int, exec: nat)
    requires InRange(p.position) && InRange(Target(p, side, exec)) && TWO_31 <= exec < TWO_32 && Reduces(p, side)
    ensures Defect(p, side, price, exec) == 0.0 <==> Exact(p, side, price, exec)
  {
    var n, m := Size(p.position), Size(Target(p, side, exec));
    var excess := Average(Cost(p, Opposite(side)), n) - R(price);
    assert Wrap32(exec) == exec - TWO_32 && Flips(p, side, exec);
    GainOf(exec - TWO_32 - n, excess + R(price), price);
    AmountZeroIff(excess, TWO_32 - exec + n);
    hide Amount, Gain, Average, Wrap32;
  }

  lemma {:induction false} GainOf(k: int, average: real, price: int)
    ensures Gain(k, average, price, 1) == 0.0 - Amount(average - R(price), R(-k))
    ensures Gain(k, average, price, -1) == Amount(average - R(price), R(-k))
  {
    assert R(-k) == 0.0 - R(k);
  }

  lemma {:induction false} AmountZeroIff(price: real, n: nat)
    ensures Amount(price, R(n)) == 0.0 <==> price == 0.0 || n == 0
  {
  }

  lemma {:induction false} AverageZeroIff(cost: real, n: nat)
    requires n > 0
    ensures Average(cost, n) == 0.0 <==> cost == 0.0
  {
  }

  // ---------------------------------------------------------------- any sequence of fills and quotes

  datatype Entry = Executed(side: Side, price: int, exec: nat) | Quoted(bid: int, ask: int)

  function Entered(p: Info, e: Entry): (q: Info)
    requires Int32(p.position)
    ensures Int32(q.position)
  {
    match e
    case Executed(side, price, exec) =>
      assert Fill(p, side, price, exec).position == Booked(p, side, price, exec).position;
      Fill(p, side, price, exec)
    case Quoted(bid, ask) => Quote(p, bid, ask)
  }

  /** The state after a sequence of fills and quotes. */
  function Entries(es: seq<Entry>): (p: Info)
    ensures Int32(p.position)
  {
    if es == [] then FLAT else Entered(Entries(es[..|es| - 1]), es[|es| - 1])
  }

  function Cash(es: seq<Entry>): real {
    if es == [] then 0.0
    else
      var e := es[|es| - 1];
      Cash(es[..|es| - 1]) + if e.Executed? then Paid(e.side, e.price, e.exec) else 0.0
  }

  /** Bought minus sold, and everything traded. */
  function Net(es: seq<Entry>): int {
    if es == [] then 0
    else
      var e := es[|es| - 1];
      var more: int := if e.Quoted? then 0 else if e.side.Buy? then e.exec else 0 - e.exec;
      Net(es[..|es| - 1]) + more
  }

  function Traded(es: seq<Entry>): nat {
    if es == [] then 0
    else var e := es[|es| - 1]; Traded(es[..|es| - 1]) + if e.Executed? then e.exec else 0
  }

  predicate TwoSided(e: Entry) {
    e.Quoted? && e.bid != PRICE_INVALID && e.ask != PRICE_INVALID
  }

  /** The price the position was last marked at: that of the last fill, or the mid of a two-sided quote after it. */
  function MarkPrice(es: seq<Entry>): real {
    if es == [] then 0.0
    else
      var e := es[|es| - 1];
      if e.Executed? then R(e.price)
      else if TwoSided(e) then R(e.bid + e.ask) * 0.5
      else MarkPrice(es[..|es| - 1])
  }

  predicate AllSafe(es: seq<Entry>) {
    es == [] ||
    var e := es[|es| - 1];
    AllSafe(es[..|es| - 1]) && (e.Executed? ==> Safe(Entries(es[..|es| - 1]), e.side, e.exec))
  }

  /** After any sequence of safe fills and of quotes, total profit is the ledger's at the last marking price. */
  lemma {:induction false} Ledger(es: seq<Entry>)
    requires AllSafe(es)
    ensures Consistent(Entries(es), Cash(es))
    ensures Entries(es).position == Net(es)
    ensures Entries(es).totalPnl == Worth(Cash(es), Net(es), MarkPrice(es))
  {
    hide Fill, Quote, Worth, Consistent, Paid, Safe;
    if es == [] {
      NothingOwed();
    } else {
      var e, before := es[|es| - 1], es[..|es| - 1];
      Ledger(before);
      if e.Executed? {
        SafeFill(Entries(before), e.side, e.price, e.exec, Cash(before));
      } else {
        QuoteLedger(Entries(before), e.bid, e.ask, Cash(before), MarkPrice(before));
      }
    }
  }

  lemma {:induction false} NothingOwed()
    ensures Consistent(FLAT, 0.0) && Worth(0.0, 0, 0.0) == 0.0
  {
  }

  /** After any entries at all: total profit is its two parts, and the volume is what was traded, in 32 bits. */
  lemma {:induction false} PartsAndVolume(es: seq<Entry>)
    ensures Entries(es).totalPnl == Entries(es).realPnl + Entries(es).unrealPnl
    ensures Entries(es).volume == Traded(es) % TWO_32
  {
    if es != [] {
      PartsAndVolume(es[..|es| - 1]);
      EntryVolume(Entries(es[..|es| - 1]), es[|es| - 1]);
      hide Entered;
      AddModulo(Traded(es[..|es| - 1]), es[|es| - 1]);
    }
  }

  lemma {:induction false} EntryVolume(p: Info, e: Entry)
    requires Int32(p.position) && p.totalPnl == p.realPnl + p.unrealPnl && p.volume < TWO_32
    ensures Entered(p, e).totalPnl == Entered(p, e).realPnl + Entered(p, e).unrealPnl
    ensures Entered(p, e).volume == (p.volume + if e.Executed? then e.exec else 0) % TWO_32
  {
    hide Reduced, Mark, Wrap32;
  }

  lemma {:induction false} AddModulo(n: nat, e: Entry)
    ensures var k := if e.Executed? then e.exec else 0; (n % TWO_32 + k) % TWO_32 == (n + k) % TWO_32
  {
  }

  /** A two-sided quote marks the position at the mid price, any other leaves the mark; the books stay consistent. */
  lemma {:induction false} QuoteLedger(p: Info, bid: int, ask: int, cash: real, was: real)
    requires Consistent(p, cash) && p.totalPnl == Worth(cash, p.position, was)
    ensures var p' := Quote(p, bid, ask);
            && p'.position == p.position && Consistent(p', cash)
            && p'.totalPnl == Worth(cash, p.position, if TwoSided(Quoted(bid, ask)) then R(bid + ask) * 0.5 else was)
  {
    if p.position == 0 {
      FlatWorth(cash, was, R(bid + ask) * 0.5);
      hide Worth;
    }
  }

  lemma {:induction false} FlatWorth(cash: real, a: real, b: real)
    ensures Worth(cash, 0, a) == Worth(cash, 0, b)
  {
  }

  // ---------------------------------------------------------------- fills outside the guard

  const HELD: Info := Info(0x1_0000, 0.0, 0.0, 0.0, 65536.0, 0.0, 0x1_0000)

  /** Selling half of 65536 at cost is taken for a flip: the product 2^31 reads as negative. */
  lemma {:induction false} FalseFlip()
    ensures Consistent(HELD, -65536.0)
    ensures Fill(HELD, Sell, 1, 0x8000).totalPnl == Worth(-65536.0 + Paid(Sell, 1, 0x8000), 0x8000, 1.0) + 32768.0
  {
    hide Fill, Defect, Worth, Paid;
    HeldDefect();
    FillTotal(HELD, Sell, 1, 0x8000, -65536.0);
    assert R(1) == 1.0;
  }

  lemma {:induction false} HeldDefect()
    ensures Defect(HELD, Sell, 1, 0x8000) == 32768.0 && Target(HELD, Sell, 0x8000) == 0x8000
  {
    assert Target(HELD, Sell, 0x8000) * HELD.position == TWO_31;
    assert Wrap32(TWO_31) == -TWO_31;
    assert SaysFlip(HELD, Sell, 0x8000);
    assert Average(65536.0, 65536) == 1.0;
    assert Amount(1.0, R(0x8000)) == 32768.0;
    GainNothing(1.0, 1, -1);
    hide Wrap32, Average, Amount, Gain, SaysFlip;
  }

  const FULL: Info := Info(0x7FFF_FFFF, 0.0, 0.0, 0.0, 2147483647.0, 0.0, 0x7FFF_FFFF)

  /** A fill of 2^31 passes the product test, yet its quantity turns negative when cast. */
  lemma {:induction false} NegativeCast()
    ensures Consistent(FULL, -2147483647.0) && InRange(Target(FULL, Sell, 0x8000_0000) * FULL.position)
    ensures var p' := Fill(FULL, Sell, 2, 0x8000_0000);
            p'.totalPnl != Worth(-2147483647.0 + Paid(Sell, 2, 0x8000_0000), p'.position, 2.0)
  {
    hide Fill, Defect, Worth, Paid;
    FullDefect();
    FillTotal(FULL, Sell, 2, 0x8000_0000, -2147483647.0);
    assert R(2) == 2.0;
  }

  lemma {:induction false} FullDefect()
    ensures Defect(FULL, Sell, 2, 0x8000_0000) != 0.0 && Target(FULL, Sell, 0x8000_0000) == -1
  {
    ProductSign(-1, FULL.position);
    assert Wrap32(0x8000_0000) == -TWO_31;
    assert Average(2147483647.0, 0x7FFF_FFFF) == 1.0;
    assert Gain(-TWO_31 - 0x7FFF_FFFF, 1.0, 2, -1) != 0.0;
    hide Wrap32, Average, Amount, Gain;
  }
}
