/** Messages and constants shared by the exchange and the trading clients. */
module Types {

  const TWO_31: int := 0x8000_0000
  const TWO_32: int := 0x1_0000_0000
  const TWO_64: int := 0x1_0000_0000_0000_0000

  /** `Priority_INVALID`: the priority field of messages that carry none. */
  const PRIORITY_INVALID: nat := 0xFFFF_FFFF_FFFF_FFFF

  /** `Price_INVALID` and `Qty_INVALID`. */
  const PRICE_INVALID: int := 0x7FFF_FFFF_FFFF_FFFF
  const QTY_INVALID: nat := 0xFFFF_FFFF

  datatype Option<+T> = None | Some(value: T)

  datatype Side = Buy | Sell

  function Opposite(side: Side): Side {
    if side.Buy? then Sell else Buy
  }

  datatype Request =
    | New(client: nat, coid: nat, ticker: nat, side: Side, price: int, qty: nat)
    | CancelOrder(client: nat, coid: nat, ticker: nat)

  /** Private messages to one client. A rejected cancel carries no side. */
  datatype Response =
    | Accepted(client: nat, ticker: nat, coid: nat, moid: nat, side: Side, price: int, leaves: nat)
    | Canceled(client: nat, ticker: nat, coid: nat, moid: nat, side: Side, price: int, leaves: nat)
    | Filled(client: nat, ticker: nat, coid: nat, moid: nat, side: Side, price: int, exec: nat, leaves: nat)
    | CancelRejected(client: nat, ticker: nat, coid: nat)

  /** Public messages. Snapshot markers carry the last incremental sequence number. */
  datatype Update =
    | Add(id: nat, ticker: nat, side: Side, price: int, qty: nat, priority: nat)
    | Modify(id: nat, ticker: nat, side: Side, price: int, qty: nat, priority: nat)
    | Cancel(id: nat, ticker: nat, side: Side, price: int, qty: nat, priority: nat)
    | Trade(ticker: nat, side: Side, price: int, qty: nat)
    | Clear(ticker: nat)
    | SnapshotStart(last: nat)
    | SnapshotEnd(last: nat)

  function Min(a: nat, b: nat): nat {
    if a <= b then a else b
  }

  /** Two's-complement reading of an integer in 32 bits. */
  function Wrap32(x: int): (r: int)
    ensures -TWO_31 <= r < TWO_31
    ensures -TWO_31 <= x < TWO_31 ==> r == x
  {
    var m := x % TWO_32;
    if m >= TWO_31 then m - TWO_32 else m
  }
}
