/**
 * The investor's portfolio as an object whose methods update it in place:
 * cash, held positions, the day counter, the simulation clock, the
 * all-time-high value and the recorded value history.
 */
module Investor {
  import opened Catalog
  import opened PriceModel
  import opened Accounts
  import opened History
  import opened TimeStep
  import opened Movements
  import opened Simulator

  class Portfolio {
    var balance: real
    var assets: map<string, Position>
    var currentDay: int
    /** Hours the simulation clock has advanced past the date the simulation started on. */
    var elapsedHours: int
    const initialBalance: real
    var athValue: real
    var history: seq<HistoryEntry>

    /** The cash and positions, as a ledger value. */
    function Book(): Ledger
      reads this
    {
      Ledger(balance, assets)
    }

    /**
     * The day counter starts at 1, every recorded value is at most the
     * all-time high, and the history is ordered by day, none after today.
     */
    ghost predicate Valid()
      reads this
    {
      && currentDay >= 1
      && Consistent(history, athValue)
      && (forall i :: 0 <= i < |history| ==> history[i].day <= currentDay)
    }

    /** A new portfolio: all cash, no positions, day 1, no history and a zero all-time high. */
    constructor (initial: real)
      ensures Valid()
      ensures balance == initial && initialBalance == initial && assets == map[]
      ensures currentDay == 1 && elapsedHours == 0 && athValue == 0.0 && history == []
      ensures LedgerOk(Book())
    {
      balance := initial;
      initialBalance := initial;
      assets := map[];
      currentDay := 1;
      elapsedHours := 0;
      athValue := 0.0;
      history := [];
    }

    /**
     * BuyAsset: refused (false, nothing changes) when the cost exceeds the
     * cash; otherwise the ledger becomes the one Buy describes. A buy of a
     * positive quantity at a positive price keeps the ledger well-formed.
     */
    method BuyAsset(name: string, quantity: int, price: real) returns (ok: bool)
      requires Valid()
      modifies this
      ensures Valid()
      ensures ok == Buy(old(Book()), name, quantity, price).Done?
      ensures Book() == if ok then Buy(old(Book()), name, quantity, price).ledger else old(Book())
      ensures currentDay == old(currentDay) && elapsedHours == old(elapsedHours)
      ensures athValue == old(athValue) && history == old(history)
      ensures old(LedgerOk(Book())) && quantity > 0 && price > 0.0 ==> LedgerOk(Book())
    {
      ghost var before := Book();
      var totalPrice := quantity as real * price;
      if totalPrice > balance {
        return false;
      }
      balance := balance - totalPrice;
      if name in assets {
        var asset := assets[name];
        asset := asset.(quantity := asset.quantity + quantity, totalPrice := asset.totalPrice + totalPrice);
        asset := asset.(nav := asset.quantity as real * asset.price);
        assets := assets[name := asset];
      } else {
        assets := assets[name := Position(name, price, quantity, totalPrice, quantity as real * price)];
      }
      ok := true;
      assert Buy(before, name, quantity, price).ledger.assets[name] == assets[name];
      assert Buy(before, name, quantity, price).ledger.assets == assets;
      if LedgerOk(before) && quantity > 0 && price > 0.0 {
        BuyKeepsOk(before, name, quantity, price);
      }
    }

    /**
     * SellAsset: refused (false, nothing changes) when the asset is not held
     * or too few units are held; otherwise the ledger becomes the one Sell
     * describes, and a well-formed ledger stays well-formed.
     */
    method SellAsset(name: string, quantity: int, price: real) returns (ok: bool)
      requires Valid() && SellDefined(Book(), name, quantity)
      modifies this
      ensures Valid()
      ensures ok == Sell(old(Book()), name, quantity, price).Done?
      ensures Book() == if ok then Sell(old(Book()), name, quantity, price).ledger else old(Book())
      ensures currentDay == old(currentDay) && elapsedHours == old(elapsedHours)
      ensures athValue == old(athValue) && history == old(history)
      ensures old(LedgerOk(Book())) ==> LedgerOk(Book())
    {
      ghost var before := Book();
      if name !in assets || assets[name].quantity < quantity {
        return false;
      }
      var asset := assets[name];
      // With nothing held, only a sell of nothing goes ahead; it deletes the
      // row, so its cost share is never used.
      var proportionalCost := 0.0;
      if asset.quantity != 0 {
        var sellRatio := quantity as real / asset.quantity as real;
        proportionalCost := asset.totalPrice * sellRatio;
      }
      var saleProceeds := quantity as real * price;
      balance := balance + saleProceeds;
      asset := asset.(quantity := asset.quantity - quantity);
      asset := asset.(totalPrice := asset.totalPrice - proportionalCost);
      asset := asset.(nav := asset.quantity as real * asset.price);
      if asset.quantity > 0 {
        assets := assets[name := asset];
      } else {
        assets := assets - {name};
      }
      ok := true;
      assert Sell(before, name, quantity, price).ledger.assets == assets by {
        if asset.quantity > 0 {
          assert Sell(before, name, quantity, price).ledger.assets[name] == asset;
        }
      }
      if LedgerOk(before) {
        SellKeepsOk(before, name, quantity, price);
      }
    }

    /**
     * UpdatePortfolioNAV: every held row is revalued at the price the
     * catalog lookup finds for its name; nothing else changes.
     */
    method UpdatePortfolioNAV(market: Market)
      requires market.Valid()
      modifies this
      ensures assets == RefreshAll(old(assets),
        QuotedPrices(old(assets).Keys, market.stocks[..], market.commodities[..], market.cryptos[..]))
      ensures balance == old(balance) && currentDay == old(currentDay) && elapsedHours == old(elapsedHours)
      ensures athValue == old(athValue) && history == old(history)
    {
      ghost var start := assets;
      ghost var stocks, commodities, cryptos := market.stocks[..], market.commodities[..], market.cryptos[..];
      ghost var found: map<string, real> := map[];
      var pending := assets.Keys;
      while pending != {}
        invariant pending <= start.Keys && assets.Keys == start.Keys
        invariant found.Keys == start.Keys - pending
        invariant forall k :: k in pending ==> assets[k] == start[k]
        invariant forall k :: k in found ==> assets[k] == Revalue(start[k], found[k])
        invariant forall k :: k in found ==> found[k] == CatalogPrice(stocks, commodities, cryptos, k)
        invariant balance == old(balance) && currentDay == old(currentDay) && elapsedHours == old(elapsedHours)
        invariant athValue == old(athValue) && history == old(history)
        decreases pending
      {
        var name :| name in pending;
        var currentPrice := market.CurrentPrice(name);
        found := found[name := currentPrice];
        if currentPrice > 0.0 {
          var asset := assets[name];
          asset := asset.(nav := asset.quantity as real * currentPrice, price := currentPrice);
          assert asset == Revalue(start[name], currentPrice);
          assets := assets[name := asset];
        }
        pending := pending - {name};
      }
      assert found == QuotedPrices(start.Keys, stocks, commodities, cryptos);
      assert assets == RefreshAll(start, found);
    }

    /** The total portfolio value: cash plus the NAV of every held row. */
    method PortfolioValue() returns (total: real)
      ensures total == TotalValue(Book())
    {
      total := balance;
      var pending := assets.Keys;
      while pending != {}
        invariant pending <= assets.Keys
        invariant total + SumNAV(assets, pending) == TotalValue(Book())
        decreases pending
      {
        var name :| name in pending;
        SumNAVRemove(assets, pending, name);
        total := total + assets[name].nav;
        pending := pending - {name};
      }
    }

    /**
     * TrackDailyHistory: revalue (twice, which is revaluing once), then
     * record today's total value with its ROI against the all-time high
     * before it, and raise the all-time high to that value if it is higher.
     */
    method TrackDailyHistory(market: Market)
      requires Valid() && market.Valid()
      modifies this
      ensures Valid()
      ensures assets == RefreshAll(old(assets),
        QuotedPrices(old(assets).Keys, market.stocks[..], market.commodities[..], market.cryptos[..]))
      ensures balance == old(balance) && currentDay == old(currentDay) && elapsedHours == old(elapsedHours)
      ensures (history, athValue) == Record(old(history), old(athValue), currentDay, TotalValue(Book()))
    {
      ghost var prices := QuotedPrices(assets.Keys, market.stocks[..], market.commodities[..], market.cryptos[..]);
      ghost var before := assets;
      UpdatePortfolioNAV(market);
      UpdatePortfolioNAV(market);
      RefreshAllIdempotent(before, prices);
      var totalValue := PortfolioValue();
      var athBefore := athValue;
      if totalValue > athValue {
        athValue := totalValue;
      }
      var roi := Roi(totalValue, athBefore);
      history := history + [HistoryEntry(currentDay, totalValue, roi)];
      RecordKeepsConsistent(old(history), athBefore, currentDay, totalValue);
    }

    /**
     * AdvanceTime: move the day counter by the interval's whole days (at
     * least one) and the clock by its hours, step every catalog price, then
     * revalue, record the history entry, and report the major movements.
     */
    method AdvanceTime(market: Market, interval: TimeInterval, draws: MarketDraws) returns (movements: seq<string>)
      requires Valid() && market.Valid()
      requires |draws.stocks.assets| == market.stocks.Length
      requires |draws.commodities.assets| == market.commodities.Length
      requires |draws.cryptos.assets| == market.cryptos.Length
      modifies this, market.stocks, market.commodities, market.cryptos
      ensures Valid() && market.Valid()
      ensures currentDay == old(currentDay) + DaysElapsed(interval.hours)
      ensures elapsedHours == old(elapsedHours) + interval.hours
      ensures balance == old(balance)
      ensures market.stocks[..] == StepAll(Stock, interval.factor,
        Sentiment(Stock, interval.factor, draws.stocks.sentimentZ), old(market.stocks[..]), draws.stocks.assets)
      ensures market.commodities[..] == StepAll(Commodity, interval.factor,
        Sentiment(Commodity, interval.factor, draws.commodities.sentimentZ), old(market.commodities[..]), draws.commodities.assets)
      ensures market.cryptos[..] == StepAll(Crypto, interval.factor,
        Sentiment(Crypto, interval.factor, draws.cryptos.sentimentZ), old(market.cryptos[..]), draws.cryptos.assets)
      ensures assets == RefreshAll(old(assets),
        QuotedPrices(old(assets).Keys, market.stocks[..], market.commodities[..], market.cryptos[..]))
      ensures (history, athValue) == Record(old(history), old(athValue), currentDay, TotalValue(Book()))
      ensures movements == Report(market.stocks[..], market.cryptos[..])
    {
      var daysElapsed := interval.hours / 24;
      if daysElapsed < 1 {
        daysElapsed := 1;
      }
      assert daysElapsed == DaysElapsed(interval.hours);
      currentDay := currentDay + daysElapsed;
      elapsedHours := elapsedHours + interval.hours;
      ghost var day := currentDay;
      market.SimulatePriceChange(interval.factor, draws);
      ghost var stocks, commodities, cryptos := market.stocks[..], market.commodities[..], market.cryptos[..];
      ghost var prices := QuotedPrices(assets.Keys, stocks, commodities, cryptos);
      ghost var before := assets;
      UpdatePortfolioNAV(market);
      ghost var revalued := assets;
      assert revalued.Keys == before.Keys;
      TrackDailyHistory(market);
      assert market.stocks[..] == stocks && market.commodities[..] == commodities && market.cryptos[..] == cryptos;
      assert assets == RefreshAll(revalued, prices);
      RefreshAllIdempotent(before, prices);
      assert currentDay == day;
      movements := SelectMovements(market.stocks, market.cryptos);
    }
  }
}
