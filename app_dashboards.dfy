/** The Aave dashboard page (app/pages/1_Dashboards.py): its copy of `safe_last_refresh`,
    the guard that stops the page without the mart files, and the guard of the price
    chart. Reading the files and every Streamlit call are not modelled. */
module AppDashboards {
  import opened Values
  import opened Frames
  import opened Home

  /** One bar of `prices.set_index("asset_symbol")["price_usd"]`. */
  datatype Bar = Bar(symbol: Value, price: Value)

  function Bars(prices: Frame): (r: seq<Bar>)
    ensures |r| == |prices.rows|
    ensures forall k :: 0 <= k < |r| ==>
      r[k] == Bar(Get(prices.rows[k], "asset_symbol"), Get(prices.rows[k], "price_usd"))
  {
    seq(|prices.rows|, k requires 0 <= k < |prices.rows| =>
          Bar(Get(prices.rows[k], "asset_symbol"), Get(prices.rows[k], "price_usd")))
  }

  /** What the page shows: nothing past the warning when a mart file is missing; otherwise
      the last refresh, the price chart (None is the "No price data" warning) and the number
      of risk scenarios and snapshot rows it lists. */
  datatype PageView =
    | Stopped
    | Shown(lastRefresh: Option<int>, chart: Option<seq<Bar>>, scenarios: int, snapshotRows: int)

  /** Lines 25-53: stop unless the three files exist; the refresh over (prices, risk,
      aave); the chart only for a non-empty price frame with both `asset_symbol` and
      `price_usd`, one bar per row. */
  method DashboardsPage(martsExist: bool, prices: Frame, risk: Frame, aave: Frame, p: Parsers)
    returns (v: PageView)
    ensures !martsExist <==> v == Stopped
    ensures v.Shown? ==>
      && v.lastRefresh == LastRefresh([Some(prices), Some(risk), Some(aave)], p)
      && (v.chart.Some? <==> !prices.Empty() && "asset_symbol" in prices.columns && "price_usd" in prices.columns)
      && (v.chart.Some? ==> v.chart.value == Bars(prices) && |v.chart.value| == |prices.rows| > 0)
      && v.scenarios == |risk.rows| && v.snapshotRows == |aave.rows|
  {
    if !martsExist {
      return Stopped;
    }
    var last := SafeLastRefresh([Some(prices), Some(risk), Some(aave)], p);
    var chart: Option<seq<Bar>> := None;
    if !(prices.Empty() || "asset_symbol" !in prices.columns || "price_usd" !in prices.columns) {
      chart := Some(Bars(prices));
    }
    v := Shown(last, chart, |risk.rows|, |aave.rows|);
  }

  /** The two pages pass the same frames in different orders, (prices, aave, risk) on the
      landing page and (prices, risk, aave) here, and still report the same refresh. */
  lemma {:induction false} PagesAgreeOnRefresh(prices: Frame, aave: Frame, risk: Frame, p: Parsers)
    ensures LastRefresh([Some(prices), Some(aave), Some(risk)], p)
         == LastRefresh([Some(prices), Some(risk), Some(aave)], p)
  {
    var a := [Some(prices), Some(aave), Some(risk)];
    var b := [Some(prices), Some(risk), Some(aave)];
    var tp := if Eligible(Some(prices)) then ValidTimes(prices, p) else [];
    var ta := if Eligible(Some(aave)) then ValidTimes(aave, p) else [];
    var tr := if Eligible(Some(risk)) then ValidTimes(risk, p) else [];
    assert a[..2][..1] == [Some(prices)] && b[..2][..1] == [Some(prices)];
    assert AllTimes([Some(prices)], p) == tp by {
      assert [Some(prices)][..0] == [];
    }
    assert AllTimes(a, p) == tp + ta + tr;
    assert AllTimes(b, p) == tp + tr + ta;
    LastRefreshSameTimes(a, b, p);
  }
}
