/**
 * The "major price movements" report of a time step, as a selection of
 * names: stocks that moved more than 2% (at most three of them), then
 * cryptocurrencies that moved more than 5%, up to six names in all.
 */
module Movements {
  import opened Catalog
  import opened Arith

  /** Stocks are reported above a 2% move, cryptocurrencies above 5%. */
  const StockThreshold: real := 0.02
  const CryptoThreshold: real := 0.05

  /** At most three stocks, and at most six names in all. */
  const StockCap: nat := 3
  const TotalCap: nat := 6

  /** Names, in list order, of the entries whose daily change exceeds `threshold` in magnitude. */
  function Significant(qs: seq<Quote>, threshold: real): seq<string>
  {
    if qs == [] then []
    else
      var last := qs[|qs| - 1];
      Significant(qs[..|qs| - 1], threshold) + (if Abs(last.dailyChange) > threshold then [last.name] else [])
  }

  /** A name is selected exactly when some entry with that name moved more than the threshold. */
  lemma {:induction false} SignificantMembers(qs: seq<Quote>, threshold: real, x: string)
    ensures x in Significant(qs, threshold) <==>
      exists i :: 0 <= i < |qs| && qs[i].name == x && Abs(qs[i].dailyChange) > threshold
  {
    if qs != [] {
      var n := |qs| - 1;
      SignificantMembers(qs[..n], threshold, x);
      if x in Significant(qs, threshold) && x !in Significant(qs[..n], threshold) {
        assert qs[n].name == x && Abs(qs[n].dailyChange) > threshold;
      }
      if exists i :: 0 <= i < |qs| && qs[i].name == x && Abs(qs[i].dailyChange) > threshold {
        var i :| 0 <= i < |qs| && qs[i].name == x && Abs(qs[i].dailyChange) > threshold;
        if i < n {
          assert qs[..n][i] == qs[i];
        }
      }
    }
  }

  /** Selecting over a prefix selects a prefix. */
  lemma {:induction false} SignificantPrefix(qs: seq<Quote>, threshold: real, j: nat)
    requires j <= |qs|
    ensures var p := Significant(qs[..j], threshold);
      |p| <= |Significant(qs, threshold)| && Significant(qs, threshold)[..|p|] == p
    decreases |qs| - j
  {
    if j < |qs| {
      var n := |qs| - 1;
      assert qs[..n][..j] == qs[..j];
      SignificantPrefix(qs[..n], threshold, j);
    } else {
      assert qs[..j] == qs;
    }
  }

  /** The first n elements, or all of them when there are fewer. */
  function Take<T>(s: seq<T>, n: nat): (r: seq<T>)
    ensures |r| <= n && |r| <= |s| && r == s[..|r|]
    ensures |s| >= n ==> |r| == n
    ensures |s| < n ==> r == s
  {
    if |s| <= n then s else s[..n]
  }

  /** The report of one step: capped significant stocks, then significant cryptocurrencies up to the total cap. */
  function Report(stocks: seq<Quote>, cryptos: seq<Quote>): seq<string>
  {
    var fromStocks := Take(Significant(stocks, StockThreshold), StockCap);
    fromStocks + Take(Significant(cryptos, CryptoThreshold), TotalCap - |fromStocks|)
  }

  /**
   * The report holds at most three stock names and at most six names in
   * all, every name reported moved past its class threshold, and the stock
   * part is a prefix of the report, in catalog order.
   */
  lemma ReportBounds(stocks: seq<Quote>, cryptos: seq<Quote>, x: string)
    ensures |Report(stocks, cryptos)| <= TotalCap
    ensures var s := Take(Significant(stocks, StockThreshold), StockCap);
      |s| <= StockCap && Report(stocks, cryptos)[..|s|] == s
    ensures x in Report(stocks, cryptos) ==>
      (exists i :: 0 <= i < |stocks| && stocks[i].name == x && Abs(stocks[i].dailyChange) > StockThreshold) ||
      (exists i :: 0 <= i < |cryptos| && cryptos[i].name == x && Abs(cryptos[i].dailyChange) > CryptoThreshold)
  {
    var s := Take(Significant(stocks, StockThreshold), StockCap);
    var c := Take(Significant(cryptos, CryptoThreshold), TotalCap - |s|);
    SignificantMembers(stocks, StockThreshold, x);
    SignificantMembers(cryptos, CryptoThreshold, x);
    if x in s + c {
      if x in s {
        assert x in Significant(stocks, StockThreshold);
      } else {
        assert x in Significant(cryptos, CryptoThreshold);
      }
    }
  }

  /** One more entry extends the selection by at most that entry's name. */
  lemma SignificantStep(qs: seq<Quote>, threshold: real, i: nat)
    requires i < |qs|
    ensures Significant(qs[..i + 1], threshold) ==
      Significant(qs[..i], threshold) + (if Abs(qs[i].dailyChange) > threshold then [qs[i].name] else [])
  {
    assert qs[..i + 1][..i] == qs[..i];
  }

  /**
   * One report loop: append, in order, the names of the entries of `a`
   * that moved past `threshold`, stopping as soon as `names` reaches `cap`.
   */
  method Collect(a: array<Quote>, threshold: real, cap: nat, acc: seq<string>) returns (names: seq<string>)
    requires |acc| < cap
    ensures names == acc + Take(Significant(a[..], threshold), cap - |acc|)
  {
    names := acc;
    var i := 0;
    while i < a.Length
      invariant 0 <= i <= a.Length
      invariant names == acc + Significant(a[..i], threshold)
      invariant |names| < cap
    {
      SignificantStep(a[..], threshold, i);
      assert a[..][..i] == a[..i] && a[..][..i + 1] == a[..i + 1];
      if Abs(a[i].dailyChange) > threshold {
        names := names + [a[i].name];
        if |names| >= cap {
          SignificantPrefix(a[..], threshold, i + 1);
          return;
        }
      }
      i := i + 1;
    }
    assert a[..i] == a[..];
  }

  /**
   * The report of AdvanceTime: the stock loop and the crypto loop share one
   * count of printed lines; the first stops at three, the second at six.
   */
  method SelectMovements(stocks: array<Quote>, cryptos: array<Quote>) returns (names: seq<string>)
    ensures names == Report(stocks[..], cryptos[..])
  {
    var fromStocks := Collect(stocks, StockThreshold, StockCap, []);
    assert fromStocks == Take(Significant(stocks[..], StockThreshold), StockCap);
    names := Collect(cryptos, CryptoThreshold, TotalCap, fromStocks);
  }
}
