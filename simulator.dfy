/**
 * The price simulator: a market object owning the three catalog arrays,
 * whose price step rewrites every entry in place, class by class.
 */
module Simulator {
  import opened Catalog
  import opened PriceModel

  /** The draws of one class for one step: its sentiment draw and one Draw per asset. */
  datatype ClassDraws = ClassDraws(sentimentZ: real, assets: seq<Draw>)

  /** The draws of one whole step. */
  datatype MarketDraws = MarketDraws(stocks: ClassDraws, commodities: ClassDraws, cryptos: ClassDraws)

  /**
   * One class loop of SimulatePriceChange: entry i is replaced by its step
   * under draw i, in place.
   */
  method StepClass(a: array<Quote>, c: AssetClass, factor: real, sentiment: real, ds: seq<Draw>)
    requires Floored(a[..]) && |ds| == a.Length
    modifies a
    ensures a[..] == StepAll(c, factor, sentiment, old(a[..]), ds)
    ensures Floored(a[..])
  {
    ghost var before := a[..];
    var i := 0;
    while i < a.Length
      invariant 0 <= i <= a.Length
      invariant forall k :: 0 <= k < i ==> a[k] == StepQuote(c, factor, sentiment, before[k], ds[k])
      invariant forall k :: i <= k < a.Length ==> a[k] == before[k]
    {
      a[i] := StepQuote(c, factor, sentiment, a[i], ds[i]);
      i := i + 1;
    }
    forall k | 0 <= k < a.Length
      ensures a[..][k] == StepAll(c, factor, sentiment, before, ds)[k]
    {
      StepAllAt(c, factor, sentiment, before, ds, k);
    }
  }

  /**
   * One scan loop of UpdatePortfolioNAV: the price of the first entry named
   * `name` (the loop breaks there), or `current` when no entry has that name.
   */
  method ScanClass(a: array<Quote>, name: string, current: real) returns (price: real)
    ensures price == PriceOr(a[..], name, current)
  {
    price := current;
    var i := 0;
    while i < a.Length
      invariant 0 <= i <= a.Length
      invariant PriceOr(a[i..], name, current) == PriceOr(a[..], name, current)
    {
      assert a[i..][0] == a[i] && a[i..][1..] == a[i + 1..];
      if a[i].name == name {
        price := a[i].price;
        return;
      }
      i := i + 1;
    }
  }

  class Market {
    var stocks: array<Quote>
    var commodities: array<Quote>
    var cryptos: array<Quote>

    /** Three separate arrays, every price at least MinPrice. */
    ghost predicate Valid()
      reads this, stocks, commodities, cryptos
    {
      && stocks != commodities && stocks != cryptos && commodities != cryptos
      && Floored(stocks[..]) && Floored(commodities[..]) && Floored(cryptos[..])
    }

    /** The market with the seed catalog. */
    constructor ()
      ensures Valid() && fresh(stocks) && fresh(commodities) && fresh(cryptos)
      ensures stocks[..] == SeedStocks && commodities[..] == SeedCommodities && cryptos[..] == SeedCryptos
    {
      SeedFloored();
      stocks := new Quote[|SeedStocks|](i requires 0 <= i < |SeedStocks| => SeedStocks[i]);
      commodities := new Quote[|SeedCommodities|](i requires 0 <= i < |SeedCommodities| => SeedCommodities[i]);
      cryptos := new Quote[|SeedCryptos|](i requires 0 <= i < |SeedCryptos| => SeedCryptos[i]);
    }

    /**
     * SimulatePriceChange: one sentiment per class, then every entry of
     * every class stepped with its own draws; the catalog stays floored.
     */
    method SimulatePriceChange(factor: real, draws: MarketDraws)
      requires Valid()
      requires |draws.stocks.assets| == stocks.Length
      requires |draws.commodities.assets| == commodities.Length
      requires |draws.cryptos.assets| == cryptos.Length
      modifies stocks, commodities, cryptos
      ensures Valid()
      ensures stocks[..] == StepAll(Stock, factor, Sentiment(Stock, factor, draws.stocks.sentimentZ), old(stocks[..]), draws.stocks.assets)
      ensures commodities[..] == StepAll(Commodity, factor, Sentiment(Commodity, factor, draws.commodities.sentimentZ), old(commodities[..]), draws.commodities.assets)
      ensures cryptos[..] == StepAll(Crypto, factor, Sentiment(Crypto, factor, draws.cryptos.sentimentZ), old(cryptos[..]), draws.cryptos.assets)
    {
      var stockSentiment := Sentiment(Stock, factor, draws.stocks.sentimentZ);
      var commoditySentiment := Sentiment(Commodity, factor, draws.commodities.sentimentZ);
      var cryptoSentiment := Sentiment(Crypto, factor, draws.cryptos.sentimentZ);
      StepClass(stocks, Stock, factor, stockSentiment, draws.stocks.assets);
      StepClass(commodities, Commodity, factor, commoditySentiment, draws.commodities.assets);
      StepClass(cryptos, Crypto, factor, cryptoSentiment, draws.cryptos.assets);
    }

    /**
     * The price lookup of UpdatePortfolioNAV: start at 0 and let each of
     * the three class scans overwrite it when it finds the name.
     */
    method CurrentPrice(name: string) returns (price: real)
      requires Valid()
      ensures price == CatalogPrice(stocks[..], commodities[..], cryptos[..], name)
    {
      price := 0.0;
      price := ScanClass(stocks, name, price);
      price := ScanClass(commodities, name, price);
      price := ScanClass(cryptos, name, price);
    }
  }
}
