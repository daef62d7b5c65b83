/**
 * The portfolio ledger as values: the cash balance and the table of held
 * positions, the buy and sell rules that update them, the revaluation of
 * positions from catalog prices, and the per-position profit figures.
 */
module Accounts {
  import opened Catalog
  import opened Arith

  /**
   * A held position: the portfolio's copy of the source's `Asset` record.
   * `price` is the last price the position saw (its buy price, or the
   * catalog price of the last revaluation), `totalPrice` its cost basis.
   */
  datatype Position = Position(name: string, price: real, quantity: int, totalPrice: real, nav: real)

  /** Cash and positions keyed by asset name. */
  datatype Ledger = Ledger(balance: real, assets: map<string, Position>)

  /** Why a trade was refused. */
  datatype LedgerError = InsufficientFunds | InsufficientHoldings

  /** The result of a trade: the new ledger, or the reason for leaving it unchanged. */
  datatype Outcome = Done(ledger: Ledger) | Refused(error: LedgerError)

  /**
   * What every kept row satisfies: it is filed under its own name, holds a
   * positive quantity at a positive last price, has a non-negative cost
   * basis, and its NAV is its quantity at its last price.
   */
  predicate PositionOk(name: string, p: Position)
  {
    && p.name == name
    && p.quantity > 0
    && p.price > 0.0
    && p.totalPrice >= 0.0
    && p.nav == p.quantity as real * p.price
  }

  predicate LedgerOk(l: Ledger)
  {
    forall k :: k in l.assets ==> PositionOk(k, l.assets[k])
  }

  /** Sum of the NAVs of the positions filed under `keys`. */
  ghost function SumNAV(m: map<string, Position>, keys: set<string>): real
    requires keys <= m.Keys
    decreases keys
  {
    if keys == {} then 0.0
    else
      var k :| k in keys;
      m[k].nav + SumNAV(m, keys - {k})
  }

  /** Sum of all NAVs of a position table. */
  ghost function TotalNAV(m: map<string, Position>): real
  {
    SumNAV(m, m.Keys)
  }

  /** Total portfolio value: cash plus every position's NAV. */
  ghost function TotalValue(l: Ledger): real
  {
    l.balance + TotalNAV(l.assets)
  }

  /** The sum does not depend on which key is taken out first. */
  lemma {:induction false} SumNAVRemove(m: map<string, Position>, keys: set<string>, k: string)
    requires keys <= m.Keys && k in keys
    ensures SumNAV(m, keys) == m[k].nav + SumNAV(m, keys - {k})
    decreases keys
  {
    var j :| j in keys && SumNAV(m, keys) == m[j].nav + SumNAV(m, keys - {j});
    if j != k {
      SumNAVRemove(m, keys - {j}, k);
      SumNAVRemove(m, keys - {k}, j);
      assert keys - {j} - {k} == keys - {k} - {j};
    }
  }

  /** Two tables whose NAVs agree on `keys` have the same sum over them. */
  lemma {:induction false} SumNAVAgree(m1: map<string, Position>, m2: map<string, Position>, keys: set<string>)
    requires keys <= m1.Keys && keys <= m2.Keys
    requires forall k :: k in keys ==> m1[k].nav == m2[k].nav
    ensures SumNAV(m1, keys) == SumNAV(m2, keys)
    decreases keys
  {
    if keys != {} {
      var k :| k in keys;
      SumNAVRemove(m1, keys, k);
      SumNAVRemove(m2, keys, k);
      SumNAVAgree(m1, m2, keys - {k});
    }
  }

  /** Writing one row changes the total NAV by the difference of that row's NAV. */
  lemma TotalNAVUpdate(m: map<string, Position>, k: string, p: Position)
    ensures TotalNAV(m[k := p]) == p.nav + TotalNAV(m - {k})
    ensures k in m ==> TotalNAV(m) == m[k].nav + TotalNAV(m - {k})
  {
    var m' := m[k := p];
    SumNAVRemove(m', m'.Keys, k);
    assert m'.Keys - {k} == (m - {k}).Keys;
    SumNAVAgree(m', m - {k}, (m - {k}).Keys);
    if k in m {
      SumNAVRemove(m, m.Keys, k);
      assert m.Keys - {k} == (m - {k}).Keys;
      SumNAVAgree(m, m - {k}, (m - {k}).Keys);
    }
  }

  /**
   * BuyAsset. Refused when quantity * price exceeds the balance; otherwise
   * the balance is debited and the one row `name` either grows (cost basis
   * by the trade cost, NAV re-derived from the row's own last price) or is
   * created at the trade price. No other row changes.
   */
  function Buy(l: Ledger, name: string, quantity: int, price: real): (r: Outcome)
    ensures r.Refused? <==> quantity as real * price > l.balance
    ensures r.Refused? ==> r.error == InsufficientFunds
    ensures r.Done? ==> r.ledger.balance == l.balance - quantity as real * price && r.ledger.balance >= 0.0
    ensures r.Done? ==> r.ledger.assets.Keys == l.assets.Keys + {name}
    ensures r.Done? ==> forall k :: k in l.assets && k != name ==> r.ledger.assets[k] == l.assets[k]
    ensures r.Done? && name in l.assets ==>
      var was, now := l.assets[name], r.ledger.assets[name];
      && now.name == was.name && now.price == was.price
      && now.quantity == was.quantity + quantity
      && now.totalPrice == was.totalPrice + quantity as real * price
      && now.nav == now.quantity as real * was.price
    ensures r.Done? && name !in l.assets ==>
      var now := r.ledger.assets[name];
      && now.name == name && now.price == price && now.quantity == quantity
      && now.totalPrice == quantity as real * price && now.nav == now.totalPrice
  {
    var totalPrice := quantity as real * price;
    if totalPrice > l.balance then Refused(InsufficientFunds)
    else
      var entry :=
        if name in l.assets then
          var asset := l.assets[name];
          var held := asset.quantity + quantity;
          asset.(quantity := held, totalPrice := asset.totalPrice + totalPrice, nav := held as real * asset.price)
        else
          Position(name, price, quantity, totalPrice, quantity as real * price);
      Done(Ledger(l.balance - totalPrice, l.assets[name := entry]))
  }

  /**
   * SellAsset. Refused when `name` is not held or fewer than `quantity`
   * units are held; otherwise the balance is credited with quantity * price,
   * the cost basis loses the sold fraction, and the row is deleted exactly
   * when no unit remains. No other row changes. Selling none of a row that
   * holds none deletes the row (the source's 0/0 cost share is lost with
   * it); the one excluded case is a negative sell against such a row,
   * which would keep a row whose cost basis the source leaves undefined.
   */
  function Sell(l: Ledger, name: string, quantity: int, price: real): (r: Outcome)
    requires SellDefined(l, name, quantity)
    ensures r.Refused? <==> name !in l.assets || l.assets[name].quantity < quantity
    ensures r.Refused? ==> r.error == InsufficientHoldings
    ensures r.Done? ==> r.ledger.balance == l.balance + quantity as real * price
    ensures r.Done? ==> (name in r.ledger.assets <==> l.assets[name].quantity > quantity)
    ensures r.Done? ==> r.ledger.assets.Keys <= l.assets.Keys
    ensures r.Done? ==> forall k :: k in l.assets && k != name ==> k in r.ledger.assets && r.ledger.assets[k] == l.assets[k]
    ensures r.Done? && name in r.ledger.assets ==>
      var was, now := l.assets[name], r.ledger.assets[name];
      && now.name == was.name && now.price == was.price
      && now.quantity == was.quantity - quantity
      && now.totalPrice == was.totalPrice * (1.0 - quantity as real / was.quantity as real)
      && now.nav == now.quantity as real * was.price
  {
    if name !in l.assets || l.assets[name].quantity < quantity then Refused(InsufficientHoldings)
    else
      var asset := l.assets[name];
      var proportionalCost := if asset.quantity == 0 then 0.0 else asset.totalPrice * (quantity as real / asset.quantity as real);
      var remaining := asset.quantity - quantity;
      var updated := asset.(quantity := remaining,
                            totalPrice := asset.totalPrice - proportionalCost,
                            nav := remaining as real * asset.price);
      Done(Ledger(l.balance + quantity as real * price,
                  if remaining > 0 then l.assets[name := updated] else l.assets - {name}))
  }

  /**
   * A sell that goes ahead either divides by a nonzero holding or sells
   * none of an empty row, which it then deletes.
   */
  predicate SellDefined(l: Ledger, name: string, quantity: int)
  {
    name in l.assets && l.assets[name].quantity >= quantity && l.assets[name].quantity == 0 ==> quantity == 0
  }

  /** The cost basis left after selling q of h units, T * (1 - q/h), is not negative. */
  lemma RemainingCostNonNegative(t: real, q: real, h: real)
    requires t >= 0.0 && 0.0 < h && q <= h
    ensures t * (1.0 - q / h) >= 0.0
  {
    DivMul(q, h);
    assert q / h <= 1.0;
    MulNonNegative(t, 1.0 - q / h);
  }

  /** A buy of a positive quantity at a positive price keeps every row well-formed. */
  lemma BuyKeepsOk(l: Ledger, name: string, quantity: int, price: real)
    requires LedgerOk(l) && quantity > 0 && price > 0.0
    ensures Buy(l, name, quantity, price).Done? ==> LedgerOk(Buy(l, name, quantity, price).ledger)
  {
    var r := Buy(l, name, quantity, price);
    if r.Done? {
      MulPositive(quantity as real, price);
      assert PositionOk(name, r.ledger.assets[name]);
    }
  }

  /** A sell keeps every row well-formed; in particular no row is left with no units. */
  lemma SellKeepsOk(l: Ledger, name: string, quantity: int, price: real)
    requires LedgerOk(l)
    ensures Sell(l, name, quantity, price).Done? ==> LedgerOk(Sell(l, name, quantity, price).ledger)
  {
    var r := Sell(l, name, quantity, price);
    if r.Done? && name in r.ledger.assets {
      var was := l.assets[name];
      RemainingCostNonNegative(was.totalPrice, quantity as real, was.quantity as real);
      assert PositionOk(name, r.ledger.assets[name]);
    }
  }

  /** Buying an asset not yet held and selling the same units at the same price restores the ledger. */
  lemma BuyThenSellRestores(l: Ledger, name: string, quantity: int, price: real)
    requires quantity > 0 && name !in l.assets
    requires quantity as real * price <= l.balance
    ensures Buy(l, name, quantity, price).Done?
    ensures Sell(Buy(l, name, quantity, price).ledger, name, quantity, price) == Done(l)
  {
    var bought := Buy(l, name, quantity, price).ledger;
    assert bought.assets - {name} == l.assets;
  }

  /** T - T*(a/h) - (T - T*(a/h)) * (b/(h-a)) == T - T*((a+b)/h): proportional removal composes. */
  lemma ProportionalCostComposes(t: real, h: real, a: real, b: real)
    requires 0.0 < a < h && 0.0 < b
    ensures var t1 := t - t * (a / h);
      t1 - t1 * (b / (h - a)) == t - t * ((a + b) / h)
  {
    var ra, rb, s := a / h, b / h, b / (h - a);
    DivMul(a, h);
    DivMul(b, h);
    DivMul(b, h - a);
    DivMul(a + b, h);
    assert (ra + rb) * h == a + b;
    CancelFactor((a + b) / h, ra + rb, h);
    assert ((1.0 - ra) * s) * h == s * (h - a);
    CancelFactor((1.0 - ra) * s, rb, h);
    var t1 := t - t * ra;
    assert t1 * s == t * ((1.0 - ra) * s);
  }

  /**
   * Two successive sells of a and b units at one price leave the same
   * ledger as one sell of a + b units: proportional cost removal does not
   * drift across partial sells.
   */
  lemma SellsCompose(l: Ledger, name: string, a: int, b: int, price: real)
    requires a > 0 && b > 0 && name in l.assets && a + b <= l.assets[name].quantity
    ensures Sell(l, name, a, price).Done?
    ensures Sell(Sell(l, name, a, price).ledger, name, b, price).Done?
    ensures Sell(Sell(l, name, a, price).ledger, name, b, price) == Sell(l, name, a + b, price)
  {
    var asset := l.assets[name];
    var first := Sell(l, name, a, price).ledger;
    assert name in first.assets;
    var second := Sell(first, name, b, price).ledger;
    var once := Sell(l, name, a + b, price).ledger;
    assert (a + b) as real * price == a as real * price + b as real * price;
    assert second.balance == once.balance;
    if a + b < asset.quantity {
      ProportionalCostComposes(asset.totalPrice, asset.quantity as real, a as real, b as real);
      assert second.assets[name] == once.assets[name];
      assert second.assets == once.assets;
    } else {
      assert second.assets == l.assets - {name};
      assert second.assets == once.assets;
    }
  }

  /** Row `name`, if held, stands at `price`, and its NAV is its quantity at that price. */
  predicate AtLastPrice(l: Ledger, name: string, price: real)
  {
    name in l.assets ==> l.assets[name].price == price && l.assets[name].nav == l.assets[name].quantity as real * price
  }

  /** A buy at the row's own last price raises the row's NAV by exactly the trade cost. */
  lemma BuyRowNav(l: Ledger, name: string, quantity: int, price: real)
    requires AtLastPrice(l, name, price)
    ensures Buy(l, name, quantity, price).Done? ==>
      Buy(l, name, quantity, price).ledger.assets[name].nav
        == (if name in l.assets then l.assets[name].nav else 0.0) + quantity as real * price
  {
    var r := Buy(l, name, quantity, price);
    if r.Done? && name in l.assets {
      var was := l.assets[name];
      var now := r.ledger.assets[name];
      SplitCount(now.quantity, quantity, price);
      assert now.quantity - quantity == was.quantity;
    }
  }

  /** A sell at the row's own last price lowers the row's NAV by exactly the proceeds. */
  lemma SellRowNav(l: Ledger, name: string, quantity: int, price: real)
    requires AtLastPrice(l, name, price) && SellDefined(l, name, quantity)
    ensures Sell(l, name, quantity, price).Done? ==>
      var after := Sell(l, name, quantity, price).ledger.assets;
      l.assets[name].nav == (if name in after then after[name].nav else 0.0) + quantity as real * price
  {
    var r := Sell(l, name, quantity, price);
    if r.Done? {
      var was := l.assets[name];
      var after := r.ledger.assets;
      var kept := name in after;
      var keptNav := if kept then after[name].nav else 0.0;
      assert kept ==> keptNav == (was.quantity - quantity) as real * price;
      NavAfterSell(was.nav, was.quantity, quantity, price, keptNav, kept);
    }
  }

  /** The NAV of a row splits into the NAV of the units kept and the proceeds of the units sold. */
  lemma NavAfterSell(wasNav: real, held: int, quantity: int, price: real, keptNav: real, kept: bool)
    requires wasNav == held as real * price
    requires kept ==> keptNav == (held - quantity) as real * price
    requires !kept ==> held == quantity && keptNav == 0.0
    ensures wasNav == keptNav + quantity as real * price
  {
    SplitCount(held, quantity, price);
  }

  /** Buying at a row's own last price (or opening a row) trades cash for NAV and keeps the total value. */
  lemma BuyKeepsTotalValue(l: Ledger, name: string, quantity: int, price: real)
    requires AtLastPrice(l, name, price)
    ensures Buy(l, name, quantity, price).Done? ==>
      TotalValue(Buy(l, name, quantity, price).ledger) == TotalValue(l)
  {
    var r := Buy(l, name, quantity, price);
    if r.Done? {
      BuyRowNav(l, name, quantity, price);
      var now := r.ledger.assets[name];
      assert r.ledger.assets == l.assets[name := now];
      TotalNAVUpdate(l.assets, name, now);
      if name !in l.assets {
        assert l.assets - {name} == l.assets;
      }
    }
  }

  /** Selling at a row's own last price trades NAV for cash and keeps the total value. */
  lemma SellKeepsTotalValue(l: Ledger, name: string, quantity: int, price: real)
    requires AtLastPrice(l, name, price) && SellDefined(l, name, quantity)
    ensures Sell(l, name, quantity, price).Done? ==>
      TotalValue(Sell(l, name, quantity, price).ledger) == TotalValue(l)
  {
    var r := Sell(l, name, quantity, price);
    if r.Done? {
      SellRowNav(l, name, quantity, price);
      TotalNAVUpdate(l.assets, name, l.assets[name]);
      if name in r.ledger.assets {
        var now := r.ledger.assets[name];
        assert r.ledger.assets == l.assets[name := now];
        TotalNAVUpdate(l.assets, name, now);
      } else {
        assert r.ledger.assets == l.assets - {name};
      }
    }
  }

  /** One row revalued at catalog price `cp`: rewritten when cp > 0, left stale otherwise. */
  function Revalue(p: Position, cp: real): (r: Position)
    ensures r.name == p.name && r.quantity == p.quantity && r.totalPrice == p.totalPrice
    ensures cp > 0.0 ==> r.price == cp && r.nav == r.quantity as real * cp
    ensures cp <= 0.0 ==> r == p
  {
    if cp > 0.0 then p.(nav := p.quantity as real * cp, price := cp) else p
  }

  /** The price the revaluation's catalog lookup finds for each name of `names`. */
  function QuotedPrices(names: set<string>, stocks: seq<Quote>, commodities: seq<Quote>, cryptos: seq<Quote>)
    : map<string, real>
  {
    map k | k in names :: CatalogPrice(stocks, commodities, cryptos, k)
  }

  /**
   * UpdatePortfolioNAV as a value: every row revalued at the price found
   * for its name. Keys, quantities and cost bases stay; a row whose found
   * price is not positive keeps its stale price and NAV.
   */
  function RefreshAll(m: map<string, Position>, prices: map<string, real>): (r: map<string, Position>)
    requires m.Keys <= prices.Keys
    ensures r.Keys == m.Keys
    ensures forall k :: k in m ==>
      && r[k].name == m[k].name && r[k].quantity == m[k].quantity && r[k].totalPrice == m[k].totalPrice
    ensures forall k :: k in m && prices[k] > 0.0 ==> r[k].price == prices[k] && r[k].nav == r[k].quantity as real * prices[k]
    ensures forall k :: k in m && prices[k] <= 0.0 ==> r[k] == m[k]
  {
    map k | k in m :: Revalue(m[k], prices[k])
  }

  /**
   * On a floored catalog, a row is revalued exactly when some class lists
   * its name, at the listed price (at least MinPrice), and otherwise keeps
   * its stale price and NAV.
   */
  lemma RefreshAllListed(m: map<string, Position>, stocks: seq<Quote>, commodities: seq<Quote>, cryptos: seq<Quote>, k: string)
    requires Floored(stocks) && Floored(commodities) && Floored(cryptos) && k in m
    ensures var r := RefreshAll(m, QuotedPrices(m.Keys, stocks, commodities, cryptos));
      && (Listed(stocks, k) || Listed(commodities, k) || Listed(cryptos, k) ==>
            r[k].price >= MinPrice && r[k].price == CatalogPrice(stocks, commodities, cryptos, k))
      && (!Listed(stocks, k) && !Listed(commodities, k) && !Listed(cryptos, k) ==> r[k] == m[k])
  {
    var prices := QuotedPrices(m.Keys, stocks, commodities, cryptos);
    assert prices[k] == CatalogPrice(stocks, commodities, cryptos, k);
    CatalogPriceFound(stocks, commodities, cryptos, k);
  }

  lemma RevalueIdempotent(p: Position, cp: real)
    ensures Revalue(Revalue(p, cp), cp) == Revalue(p, cp)
  {
  }

  /** Revaluing twice at the same prices is revaluing once. */
  lemma RefreshAllIdempotent(m: map<string, Position>, prices: map<string, real>)
    requires m.Keys <= prices.Keys
    ensures RefreshAll(RefreshAll(m, prices), prices) == RefreshAll(m, prices)
  {
    var once := RefreshAll(m, prices);
    var twice := RefreshAll(once, prices);
    forall k | k in m
      ensures twice[k] == once[k]
    {
      RevalueIdempotent(m[k], prices[k]);
    }
  }

  /** Revaluation keeps every row well-formed. */
  lemma RefreshAllKeepsOk(l: Ledger, prices: map<string, real>)
    requires LedgerOk(l) && l.assets.Keys <= prices.Keys
    ensures LedgerOk(Ledger(l.balance, RefreshAll(l.assets, prices)))
  {
  }

  /** Profit or loss of a row: NAV minus cost basis. */
  function ProfitLoss(p: Position): real
  {
    p.nav - p.totalPrice
  }

  /**
   * Return on a row in percent, against its cost basis; 0 when the cost
   * basis is not positive. Recovering the NAV from cost basis and return is
   * the inverse of computing the return.
   */
  function ReturnPct(p: Position): (r: real)
    ensures p.totalPrice > 0.0 ==> p.nav == p.totalPrice * (1.0 + r / 100.0)
    ensures p.totalPrice > 0.0 ==> (r > 0.0 <==> p.nav > p.totalPrice) && (r == 0.0 <==> p.nav == p.totalPrice)
    ensures p.totalPrice <= 0.0 ==> r == 0.0
  {
    if p.totalPrice > 0.0 then (ProfitLoss(p) / p.totalPrice) * 100.0 else 0.0
  }
}
