/**
 * The asset catalog: the three class lists of quotes (S&P 500 stocks,
 * commodities, cryptocurrencies), their seed data, and the name lookup that
 * the portfolio revaluation performs over them.
 */
module Catalog {
  /** The three asset classes; each has its own price-step parameters. */
  datatype AssetClass = Stock | Commodity | Crypto

  /**
   * A catalog entry: the fields of the source's `Asset` record that the
   * catalog lists use (their quantity, cost and NAV fields stay zero there).
   */
  datatype Quote = Quote(name: string, price: real, volatility: real, dailyChange: real)

  /** The smallest price a price step may leave on the catalog. */
  const MinPrice: real := 0.01

  /** Every price of the list is at least MinPrice. */
  predicate Floored(qs: seq<Quote>)
  {
    forall i :: 0 <= i < |qs| ==> qs[i].price >= MinPrice
  }

  /** The name occurs in the list. */
  predicate Listed(qs: seq<Quote>, name: string)
  {
    exists i :: 0 <= i < |qs| && qs[i].name == name
  }

  /**
   * One scan loop of the revaluation: the price of the first entry named
   * `name` (the scan breaks there), or `current`, the price found so far,
   * when no entry has that name.
   */
  function PriceOr(qs: seq<Quote>, name: string, current: real): real
  {
    if qs == [] then current
    else if qs[0].name == name then qs[0].price
    else PriceOr(qs[1..], name, current)
  }

  /** A scan keeps the price found so far exactly when its list lacks the name; otherwise it reports a listed price. */
  lemma {:induction false} PriceOrFound(qs: seq<Quote>, name: string, current: real)
    ensures !Listed(qs, name) ==> PriceOr(qs, name, current) == current
    ensures Listed(qs, name) ==> exists i :: 0 <= i < |qs| && qs[i].name == name && PriceOr(qs, name, current) == qs[i].price
  {
    if qs != [] {
      PriceOrFound(qs[1..], name, current);
      if qs[0].name != name {
        if Listed(qs, name) {
          var i :| 0 <= i < |qs| && qs[i].name == name;
          assert qs[1..][i - 1] == qs[i];
          var j :| 0 <= j < |qs| - 1 && qs[1..][j].name == name && PriceOr(qs[1..], name, current) == qs[1..][j].price;
          assert qs[j + 1] == qs[1..][j];
        } else {
          assert !Listed(qs[1..], name) by {
            forall j | 0 <= j < |qs| - 1
              ensures qs[1..][j].name != name
            {
              assert qs[1..][j] == qs[j + 1];
            }
          }
        }
      }
    }
  }

  /** The scan stops at the first entry carrying the name. */
  lemma {:induction false} PriceOrFirst(qs: seq<Quote>, name: string, current: real, i: nat)
    requires i < |qs| && qs[i].name == name
    requires forall j :: 0 <= j < i ==> qs[j].name != name
    ensures PriceOr(qs, name, current) == qs[i].price
  {
    if i > 0 {
      assert qs[0].name != name;
      assert forall j :: 0 <= j < i - 1 ==> qs[1..][j] == qs[j + 1];
      PriceOrFirst(qs[1..], name, current, i - 1);
    }
  }

  /**
   * The price the revaluation finds for `name`: it starts at 0 and scans
   * stocks, then commodities, then cryptocurrencies, each scan overwriting
   * what an earlier one found, so the LAST class that lists the name wins.
   */
  function CatalogPrice(stocks: seq<Quote>, commodities: seq<Quote>, cryptos: seq<Quote>, name: string): real
  {
    PriceOr(cryptos, name, PriceOr(commodities, name, PriceOr(stocks, name, 0.0)))
  }

  /**
   * On a floored catalog the revaluation finds a positive price exactly when
   * some class lists the name, and then that price is at least MinPrice;
   * an unlisted name yields 0.
   */
  lemma CatalogPriceFound(stocks: seq<Quote>, commodities: seq<Quote>, cryptos: seq<Quote>, name: string)
    requires Floored(stocks) && Floored(commodities) && Floored(cryptos)
    ensures var p := CatalogPrice(stocks, commodities, cryptos, name);
      && (p > 0.0 <==> Listed(stocks, name) || Listed(commodities, name) || Listed(cryptos, name))
      && (p > 0.0 ==> p >= MinPrice)
      && (p <= 0.0 ==> p == 0.0)
  {
    var p0 := PriceOr(stocks, name, 0.0);
    var p1 := PriceOr(commodities, name, p0);
    PriceOrFound(stocks, name, 0.0);
    PriceOrFound(commodities, name, p0);
    PriceOrFound(cryptos, name, p1);
  }

  /** A cryptocurrency listing takes precedence over the other two classes. */
  lemma CatalogPriceCryptoWins(stocks: seq<Quote>, commodities: seq<Quote>, cryptos: seq<Quote>, name: string, i: nat)
    requires i < |cryptos| && cryptos[i].name == name
    requires forall j :: 0 <= j < i ==> cryptos[j].name != name
    ensures CatalogPrice(stocks, commodities, cryptos, name) == cryptos[i].price
  {
    PriceOrFirst(cryptos, name, PriceOr(commodities, name, PriceOr(stocks, name, 0.0)), i);
  }

  /** Seed data of the stock list. */
  const SeedStocks: seq<Quote> := [
    Quote("Tesla", 750.0, 0.05, 0.0),
    Quote("Apple", 145.0, 0.035, 0.0),
    Quote("Microsoft", 300.0, 0.032, 0.0),
    Quote("Amazon", 3400.0, 0.042, 0.0),
    Quote("Google", 2800.0, 0.038, 0.0),
    Quote("Facebook", 330.0, 0.045, 0.0),
    Quote("Berkshire Hathaway", 420000.0, 0.028, 0.0),
    Quote("Johnson & Johnson", 175.0, 0.025, 0.0),
    Quote("Visa", 230.0, 0.030, 0.0),
    Quote("Nvidia", 670.0, 0.055, 0.0)
  ]

  /** Seed data of the commodity list. */
  const SeedCommodities: seq<Quote> := [
    Quote("Gold", 1800.0, 0.02, 0.0),
    Quote("Silver", 25.0, 0.03, 0.0)
  ]

  /** Seed data of the cryptocurrency list. */
  const SeedCryptos: seq<Quote> := [
    Quote("Bitcoin", 103972.67, 0.15, 0.0),
    Quote("Ethereum", 2520.55, 0.18, 0.0),
    Quote("Tether", 1.00, 0.01, 0.0),
    Quote("XRP", 2.39, 0.22, 0.0),
    Quote("BNB", 647.41, 0.20, 0.0),
    Quote("Solana", 171.34, 0.25, 0.0),
    Quote("USD Coin", 0.9997, 0.008, 0.0),
    Quote("Dogecoin", 0.2243, 0.30, 0.0),
    Quote("Cardano", 0.7619, 0.22, 0.0),
    Quote("Tron", 0.2729, 0.24, 0.0)
  ]

  /** The seed catalog starts floored, which the price steps then preserve. */
  lemma SeedFloored()
    ensures Floored(SeedStocks) && Floored(SeedCommodities) && Floored(SeedCryptos)
  {
  }
}
