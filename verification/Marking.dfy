/**
  Quotes meet positions: when a client's book changes, its cached quotes are what the position keeper marks at.
*/
module Markings {
  import opened Feed
  import opened MarketOrderBooks
  import Positions
  import Ladder
  import LinkedBooks

  /** The position marked at the middle of the two best prices, if both sides of the book have orders. */
  ghost function MarkedAt(p: Positions.Info, b: PublicBook): Positions.Info
    requires Positions.Int32(p.position)
  {
    if p.position != 0 && b.bids != [] && b.asks != [] then
      var u := Positions.Mark(p, ((b.bids[0].price + b.asks[0].price) as real) / 2.0);
      p.(unrealPnl := u, totalPnl := p.realPnl + u)
    else p
  }

  /** The quotes of a book re-mark an open position exactly when both sides have orders. */
  lemma {:induction false} QuotesMark(p: Positions.Info, b: PublicBook)
    requires Positions.Int32(p.position) && PricesValid(b)
    ensures var q := BBOOf(b); Positions.Quote(p, q.bid.price, q.ask.price) == MarkedAt(p, b)
  {
    InvalidIffEmpty(b);
    hide Positions.Mark;
    if b.bids != [] && b.asks != [] {
      var sum := b.bids[0].price + b.asks[0].price;
      assert Positions.R(sum) * 0.5 == (sum as real) / 2.0;
    }
  }

  /** In terms of the ledger: marked at mid with orders on both sides, and as it was otherwise. */
  lemma {:induction false} QuotesKeepLedger(p: Positions.Info, b: PublicBook, cash: real, was: real)
    requires PricesValid(b) && Positions.Consistent(p, cash) && p.totalPnl == Positions.Worth(cash, p.position, was)
    ensures var q := BBOOf(b);
            var p' := Positions.Quote(p, q.bid.price, q.ask.price);
            && Positions.Consistent(p', cash)
            && (b.bids != [] && b.asks != [] ==>
                  var mid := Positions.R(b.bids[0].price + b.asks[0].price) * 0.5;
                  p'.totalPnl == Positions.Worth(cash, p.position, mid))
            && (b.bids == [] || b.asks == [] ==> p' == p)
  {
    InvalidIffEmpty(b);
    var q := BBOOf(b);
    Positions.QuoteLedger(p, q.bid.price, q.ask.price, cash, was);
    hide Positions.Mark, Positions.Worth, Positions.Consistent;
  }

  /** The trade engine's reaction to a changed book. */
  method OnOrderBookUpdate(replica: MarketOrderBook, info: Positions.PositionInfo)
    requires replica.Valid() && info.Valid()
    requires info !in replica.Repr() && info.openVwap !in replica.Repr()
    modifies info
    ensures replica.Valid() && info.Valid()
    ensures info.View() == Positions.Quote(old(info.View()), replica.bbo.bid.price, replica.bbo.ask.price)
    ensures PricesValid(replica.book.View()) ==> info.View() == MarkedAt(old(info.View()), replica.book.View())
  {
    hide Ladder.LevelsOk, Ladder.SlotsOk, Ladder.SideOk, Ladder.Covered, Ladder.LiveOk, LinkedBooks.BookOf, BookOk;
    hide MarketOrderBook.IndexOk, QuoteOf, PricesValid;
    hide Positions.Mark, MarkedAt, Positions.Quote;
    ghost var b := replica.book.View();
    if PricesValid(b) {
      QuotesMark(info.View(), b);
    }
    info.UpdateBBO(replica.bbo.bid.price, replica.bbo.ask.price);
  }
}
