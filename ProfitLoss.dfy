/** The profit/loss state machine of src/modules/positions.js: a record
    `{position, meanOpenPrice, realized}` is moved by each trade of one
    outcome, growing or shrinking the position, updating the share-weighted
    mean open price and booking realized P/L. BigNumber values are exact reals. */
module ProfitLoss {
  import opened Common

  datatype PL = PL(position: real, meanOpenPrice: real, realized: real)

  /** One trade of an outcome; `tradeType` is 1 (buy) or 2 (sell) from the
      taker's point of view, `maker` says whether the user was the maker. */
  datatype Trade = Trade(tradeType: int, price: real, shares: real, maker: bool)

  /** The result of `calculateProfitLoss`, before `toFixed` turns it into strings. */
  datatype Report = Report(position: real, meanOpenPrice: real, realized: real, unrealized: real)

  function Abs(x: real): real
  {
    if x < 0.0 then -x else x
  }

  /** `realized + shares * (price - meanOpenPrice)`: closing shares above the
      mean open price books a gain, below it a loss, at it nothing. */
  function UpdateRealizedPL(meanOpenPrice: real, realized: real, shares: real, price: real): (r: real)
    ensures shares >= 0.0 && price >= meanOpenPrice ==> r >= realized
    ensures shares >= 0.0 && price <= meanOpenPrice ==> r <= realized
    ensures shares == 0.0 || price == meanOpenPrice ==> r == realized
  {
    realized + shares * (price - meanOpenPrice)
  }

  /** Closing `s1` and then `s2` shares at one price books what closing `s1 + s2` at once does. */
  lemma RealizedSplitSale(meanOpenPrice: real, realized: real, s1: real, s2: real, price: real)
    ensures UpdateRealizedPL(meanOpenPrice, UpdateRealizedPL(meanOpenPrice, realized, s1, price), s2, price)
      == UpdateRealizedPL(meanOpenPrice, realized, s1 + s2, price)
  {
    assert s1 * (price - meanOpenPrice) + s2 * (price - meanOpenPrice) == (s1 + s2) * (price - meanOpenPrice);
  }

  /** The mean open price after `shares` more at `price`: the weights are the
      old position and the traded shares over the new total. */
  function UpdateMeanOpenPrice(position: real, meanOpenPrice: real, shares: real, price: real): (r: real)
    requires shares + position != 0.0
    ensures r * (shares + position) == position * meanOpenPrice + shares * price
  {
    position / (shares + position) * meanOpenPrice + shares / (shares + position) * price
  }

  /** A step in the positive direction; it divides by the new position when the old one is long. */
  function LongerPositionPL(pl: PL, shares: real, price: real): (r: PL)
    requires pl.position > 0.0 ==> pl.position + shares != 0.0
    ensures r.position == pl.position + shares
    ensures pl.position == 0.0 ==> r.meanOpenPrice == price && r.realized == pl.realized
    ensures pl.position > 0.0 ==> r.realized == pl.realized
    ensures pl.position > 0.0 ==>
      r.meanOpenPrice * (pl.position + shares) == pl.position * pl.meanOpenPrice + shares * price
    ensures pl.position < 0.0 ==> r.meanOpenPrice == pl.meanOpenPrice
    ensures pl.position < 0.0 ==>
      r.realized == pl.realized - shares * (price - pl.meanOpenPrice)
  {
    var updated := PL(pl.position + shares, pl.meanOpenPrice, pl.realized);
    if pl.position == 0.0 then updated.(meanOpenPrice := price)
    else if pl.position > 0.0 then updated.(meanOpenPrice := UpdateMeanOpenPrice(pl.position, pl.meanOpenPrice, shares, price))
    else updated.(realized := UpdateRealizedPL(pl.meanOpenPrice, pl.realized, -shares, price))
  }

  /** A step in the negative direction; it divides by the new position when the old one is short. */
  function ShorterPositionPL(pl: PL, shares: real, price: real): (r: PL)
    requires pl.position < 0.0 ==> pl.position - shares != 0.0
    ensures r.position == pl.position - shares
    ensures pl.position == 0.0 ==> r.meanOpenPrice == price && r.realized == pl.realized
    ensures pl.position < 0.0 ==> r.realized == pl.realized
    ensures pl.position < 0.0 ==>
      r.meanOpenPrice * (Abs(pl.position) + shares) == Abs(pl.position) * pl.meanOpenPrice + shares * price
    ensures pl.position > 0.0 ==> r.meanOpenPrice == pl.meanOpenPrice
    ensures pl.position > 0.0 ==>
      r.realized == pl.realized + shares * (price - pl.meanOpenPrice)
  {
    var updated := PL(pl.position - shares, pl.meanOpenPrice, pl.realized);
    if pl.position == 0.0 then updated.(meanOpenPrice := price)
    else if pl.position < 0.0 then updated.(meanOpenPrice := UpdateMeanOpenPrice(pl.position, pl.meanOpenPrice, -shares, price))
    else updated.(realized := UpdateRealizedPL(pl.meanOpenPrice, pl.realized, shares, price))
  }

  /** Neither step divides by zero: a traded amount never flips the sign of the sum. */
  predicate StepDefined(pl: PL, shares: real)
  {
    (pl.position > 0.0 ==> pl.position + shares != 0.0) &&
    (pl.position < 0.0 ==> pl.position - shares != 0.0)
  }

  lemma NonNegativeSharesDefined(pl: PL, shares: real)
    requires shares >= 0.0
    ensures StepDefined(pl, shares)
  {
  }

  /** As maker, a sell (type 2) matched the user's bid: the position grows. */
  function MakerPL(pl: PL, tradeType: int, price: real, shares: real): PL
    requires StepDefined(pl, shares)
  {
    if tradeType == 2 then LongerPositionPL(pl, shares, price)
    else ShorterPositionPL(pl, shares, price)
  }

  /** As taker, a buy (type 1) grows the position. */
  function TakerPL(pl: PL, tradeType: int, price: real, shares: real): PL
    requires StepDefined(pl, shares)
  {
    if tradeType == 1 then LongerPositionPL(pl, shares, price)
    else ShorterPositionPL(pl, shares, price)
  }

  /** Maker type 2 and taker type 1 are the same step, and so are every other
      maker type and every other taker type. */
  lemma MakerTakerAgree(pl: PL, price: real, shares: real)
    requires StepDefined(pl, shares)
    ensures MakerPL(pl, 2, price, shares) == TakerPL(pl, 1, price, shares) == LongerPositionPL(pl, shares, price)
    ensures forall makerType :: makerType != 2 ==> MakerPL(pl, makerType, price, shares) == ShorterPositionPL(pl, shares, price)
    ensures forall takerType :: takerType != 1 ==> TakerPL(pl, takerType, price, shares) == ShorterPositionPL(pl, shares, price)
  {
  }

  /** Whether the trade grows the position (the longer step). */
  predicate Grows(t: Trade)
  {
    if t.maker then t.tradeType == 2 else t.tradeType == 1
  }

  function TradePL(pl: PL, t: Trade): (r: PL)
    requires StepDefined(pl, t.shares)
    ensures r.position == if Grows(t) then pl.position + t.shares else pl.position - t.shares
  {
    if t.maker then MakerPL(pl, t.tradeType, t.price, t.shares)
    else TakerPL(pl, t.tradeType, t.price, t.shares)
  }

  /** Trade amounts, as read from the chain, are not negative. */
  predicate NonNegativeShares(trades: seq<Trade>)
  {
    forall i :: 0 <= i < |trades| ==> trades[i].shares >= 0.0
  }

  /** The record after folding the trades in order. */
  function TradesPL(pl: PL, trades: seq<Trade>): PL
    requires NonNegativeShares(trades)
  {
    if trades == [] then pl
    else
      var prev := TradesPL(pl, trades[..|trades| - 1]);
      NonNegativeSharesDefined(prev, trades[|trades| - 1].shares);
      TradePL(prev, trades[|trades| - 1])
  }

  method CalculateTradesPL(pl: PL, trades: seq<Trade>) returns (r: PL)
    requires NonNegativeShares(trades)
    ensures r == TradesPL(pl, trades)
  {
    r := pl;
    var i := 0;
    while i < |trades|
      invariant 0 <= i <= |trades|
      invariant r == TradesPL(pl, trades[..i])
    {
      assert trades[..i + 1][..i] == trades[..i];
      NonNegativeSharesDefined(r, trades[i].shares);
      r := TradePL(r, trades[i]);
      i := i + 1;
    }
    assert trades[..i] == trades;
  }

  /** Reference sum: the signed amounts of the trades, plus for a growing trade and minus otherwise. */
  function NetShares(trades: seq<Trade>): real
  {
    if trades == [] then 0.0
    else
      var t := trades[|trades| - 1];
      NetShares(trades[..|trades| - 1]) + (if Grows(t) then t.shares else -t.shares)
  }

  /** The final position is the starting one moved by every trade's signed amount. */
  lemma {:induction false} PositionIsNetShares(pl: PL, trades: seq<Trade>)
    requires NonNegativeShares(trades)
    ensures TradesPL(pl, trades).position == pl.position + NetShares(trades)
  {
    if trades != [] {
      PositionIsNetShares(pl, trades[..|trades| - 1]);
    }
  }

  /** Growing a long position leaves its mean open price between the old mean and the price. */
  lemma MeanBetween(pl: PL, shares: real, price: real)
    requires pl.position > 0.0 && shares >= 0.0
    ensures var m := LongerPositionPL(pl, shares, price).meanOpenPrice;
      (pl.meanOpenPrice <= price ==> pl.meanOpenPrice <= m <= price) &&
      (price <= pl.meanOpenPrice ==> price <= m <= pl.meanOpenPrice)
  {
    var m := LongerPositionPL(pl, shares, price).meanOpenPrice;
    var n := pl.position + shares;
    assert m * n == pl.position * pl.meanOpenPrice + shares * price;
    assert (m - pl.meanOpenPrice) * n == shares * (price - pl.meanOpenPrice);
    assert (m - price) * n == pl.position * (pl.meanOpenPrice - price);
  }

  /** Only shrinking a long position (or covering a short one) books realized P/L:
      a run of growing trades from a flat or long position leaves it unchanged. */
  lemma {:induction false} GrowingKeepsRealized(pl: PL, trades: seq<Trade>)
    requires NonNegativeShares(trades) && pl.position >= 0.0
    requires forall i :: 0 <= i < |trades| ==> Grows(trades[i])
    ensures TradesPL(pl, trades).realized == pl.realized
    ensures TradesPL(pl, trades).position >= pl.position
  {
    if trades != [] {
      GrowingKeepsRealized(pl, trades[..|trades| - 1]);
    }
  }

  /** Opening at `p1` and closing the same amount at `p2` realizes `shares * (p2 - p1)`
      and leaves the position flat. */
  lemma BuyThenSell(realized: real, mean: real, shares: real, p1: real, p2: real)
    requires shares > 0.0
    ensures var flat := PL(0.0, mean, realized);
      var closed := TradesPL(flat, [Trade(1, p1, shares, false), Trade(2, p2, shares, false)]);
      closed.position == 0.0 && closed.meanOpenPrice == p1 && closed.realized == realized + shares * (p2 - p1)
  {
    var flat := PL(0.0, mean, realized);
    var trades := [Trade(1, p1, shares, false), Trade(2, p2, shares, false)];
    assert trades[..1] == [trades[0]] && trades[..1][..0] == [];
    var entered := TradePL(flat, trades[0]);
    assert TradesPL(flat, trades[..1]) == entered;
    assert entered == PL(shares, p1, realized);
    assert TradesPL(flat, trades) == TradePL(entered, trades[1]);
  }

  /** Selling short at `p1` and buying back at `p2` realizes `shares * (p1 - p2)`. */
  lemma SellThenBuy(realized: real, mean: real, shares: real, p1: real, p2: real)
    requires shares > 0.0
    ensures var flat := PL(0.0, mean, realized);
      var closed := TradesPL(flat, [Trade(2, p1, shares, false), Trade(1, p2, shares, false)]);
      closed.position == 0.0 && closed.meanOpenPrice == p1 && closed.realized == realized + shares * (p1 - p2)
  {
    var flat := PL(0.0, mean, realized);
    var trades := [Trade(2, p1, shares, false), Trade(1, p2, shares, false)];
    assert trades[..1] == [trades[0]] && trades[..1][..0] == [];
    var entered := TradePL(flat, trades[0]);
    assert TradesPL(flat, trades[..1]) == entered;
    assert entered == PL(-shares, p1, realized);
    assert TradesPL(flat, trades) == TradePL(entered, trades[1]);
  }

  /** Shares held times the move from the mean open price; nothing without a last price. */
  function UnrealizedPL(position: real, meanOpenPrice: real, lastTradePrice: real): (r: real)
    ensures lastTradePrice == 0.0 ==> r == 0.0
    ensures position == 0.0 ==> r == 0.0
    ensures lastTradePrice == meanOpenPrice ==> r == 0.0
  {
    if lastTradePrice == 0.0 then 0.0 else position * (lastTradePrice - meanOpenPrice)
  }

  /** The unrealized P/L is what closing the whole position at the last price would realize. */
  lemma UnrealizedIsClosingGain(pl: PL, price: real)
    requires price != 0.0
    ensures pl.position > 0.0 ==>
      UnrealizedPL(pl.position, pl.meanOpenPrice, price) == ShorterPositionPL(pl, pl.position, price).realized - pl.realized
    ensures pl.position < 0.0 ==>
      UnrealizedPL(pl.position, pl.meanOpenPrice, price) == LongerPositionPL(pl, -pl.position, price).realized - pl.realized
  {
  }

  /** `calculateProfitLoss`: fold the trades from the all-zero record, then zero a
      position below `precisionZero` (a constant not part of this model) or
      value it at the last trade price. */
  method CalculateProfitLoss(trades: Option<seq<Trade>>, lastTradePrice: real, precisionZero: real)
    returns (r: Report)
    requires trades.Some? ==> NonNegativeShares(trades.value)
    ensures trades.None? ==> r == Report(0.0, 0.0, 0.0, 0.0)
    ensures trades.Some? ==>
      var pl := TradesPL(PL(0.0, 0.0, 0.0), trades.value);
      r.realized == pl.realized &&
      (Abs(pl.position) < precisionZero ==> r.position == 0.0 && r.meanOpenPrice == 0.0 && r.unrealized == 0.0) &&
      (Abs(pl.position) >= precisionZero ==>
        r.position == pl.position && r.meanOpenPrice == pl.meanOpenPrice &&
        r.unrealized == UnrealizedPL(pl.position, pl.meanOpenPrice, lastTradePrice))
    ensures lastTradePrice == 0.0 ==> r.unrealized == 0.0
  {
    r := Report(0.0, 0.0, 0.0, 0.0);
    if trades.Some? {
      var pl := CalculateTradesPL(PL(0.0, 0.0, 0.0), trades.value);
      r := Report(pl.position, pl.meanOpenPrice, pl.realized, 0.0);
      if Abs(pl.position) < precisionZero {
        r := r.(position := 0.0, meanOpenPrice := 0.0, unrealized := 0.0);
      } else {
        r := r.(unrealized := UnrealizedPL(pl.position, pl.meanOpenPrice, lastTradePrice));
      }
    }
  }
}
