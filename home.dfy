/** The landing page (app/Home.py): `safe_last_refresh`, the Aave TVL and ETH price metrics
    and the order in which the page puts them together. Reading the parquet files and every
    Streamlit call are not modelled: whether the three files exist is a parameter, each
    frame is a parameter, and the page comes out as the values it would display. */
module Home {
  import opened Values
  import opened Seqs
  import opened Frames

  // ---------------------------------------------------------------- safe_last_refresh

  /** `df is None or df.empty or "ts_utc" not in df.columns` is false. */
  predicate Eligible(df: Option<Frame>) {
    df.Some? && !df.value.Empty() && "ts_utc" in df.value.columns
  }

  function TimeOf(p: Parsers): Row -> Option<int> {
    row => ToDatetime(Get(row, "ts_utc"), p)
  }

  /** `pd.to_datetime(df["ts_utc"], errors="coerce", utc=True).dropna()`: the timestamps
      of the rows whose cell parses, in row order. */
  function ValidTimes(f: Frame, p: Parsers): seq<int> {
    FilterMap(f.rows, TimeOf(p))
  }

  /** `Series.max()` and the builtin `max` on a non-empty list: a member that no member
      exceeds. */
  function MaxOf(s: seq<int>): (m: int)
    requires |s| > 0
    ensures m in s
    ensures forall k :: 0 <= k < |s| ==> s[k] <= m
  {
    if |s| == 1 then s[0]
    else
      var init := s[..|s| - 1];
      var m := MaxOf(init);
      assert s == init + [s[|s| - 1]];
      if s[|s| - 1] > m then s[|s| - 1] else m
  }

  /** What one frame adds to `candidates`: its latest valid timestamp, if it is eligible
      and has one. */
  function Candidate(df: Option<Frame>, p: Parsers): Option<int> {
    if Eligible(df) && |ValidTimes(df.value, p)| > 0 then Some(MaxOf(ValidTimes(df.value, p))) else None
  }

  function CandidateOf(p: Parsers): Option<Frame> -> Option<int> {
    df => Candidate(df, p)
  }

  /** The `candidates` list after the loop over `dfs`. */
  function Candidates(dfs: seq<Option<Frame>>, p: Parsers): seq<int> {
    FilterMap(dfs, CandidateOf(p))
  }

  /** The value `safe_last_refresh` formats: None is "N/A", a timestamp is rendered with
      `isoformat()`. */
  function LastRefresh(dfs: seq<Option<Frame>>, p: Parsers): Option<int> {
    var c := Candidates(dfs, p);
    if |c| == 0 then None else Some(MaxOf(c))
  }

  /** Every valid timestamp of every eligible frame: the reference the result is measured
      against. */
  function AllTimes(dfs: seq<Option<Frame>>, p: Parsers): seq<int> {
    if dfs == [] then []
    else
      var last := dfs[|dfs| - 1];
      AllTimes(dfs[..|dfs| - 1], p) + (if Eligible(last) then ValidTimes(last.value, p) else [])
  }

  /** The candidates are drawn from the valid timestamps, and every valid timestamp is
      bounded by some candidate. */
  lemma {:induction false} CandidatesCover(dfs: seq<Option<Frame>>, p: Parsers)
    ensures |Candidates(dfs, p)| == 0 <==> |AllTimes(dfs, p)| == 0
    ensures forall c :: c in Candidates(dfs, p) ==> c in AllTimes(dfs, p)
    ensures forall t :: t in AllTimes(dfs, p) ==> exists c :: c in Candidates(dfs, p) && t <= c
  {
    if dfs != [] {
      var init, last := dfs[..|dfs| - 1], dfs[|dfs| - 1];
      assert dfs == init + [last];
      CandidatesCover(init, p);
      FilterMapSnoc(init, last, CandidateOf(p));
      var extra := if Eligible(last) then ValidTimes(last.value, p) else [];
      assert AllTimes(dfs, p) == AllTimes(init, p) + extra;
      assert Candidates(dfs, p) == Candidates(init, p) + Kept(Candidate(last, p));
      forall t | t in AllTimes(dfs, p) ensures exists c :: c in Candidates(dfs, p) && t <= c {
        if t in AllTimes(init, p) {
          var c :| c in Candidates(init, p) && t <= c;
          assert c in Candidates(dfs, p);
        } else {
          var k :| 0 <= k < |extra| && extra[k] == t;
          var m := Candidate(last, p).value;
          assert m in Candidates(dfs, p);
        }
      }
    }
  }

  /** Lines 12-23, as promised: "N/A" exactly when no eligible frame holds a valid
      timestamp; otherwise one of those timestamps, and none of them is later. */
  lemma {:induction false} LastRefreshSpec(dfs: seq<Option<Frame>>, p: Parsers)
    ensures LastRefresh(dfs, p).None? <==> |AllTimes(dfs, p)| == 0
    ensures LastRefresh(dfs, p).Some? ==>
      && LastRefresh(dfs, p).value in AllTimes(dfs, p)
      && forall k :: 0 <= k < |AllTimes(dfs, p)| ==> AllTimes(dfs, p)[k] <= LastRefresh(dfs, p).value
  {
    CandidatesCover(dfs, p);
    var c := Candidates(dfs, p);
    if |c| > 0 {
      var m := MaxOf(c);
      forall k | 0 <= k < |AllTimes(dfs, p)| ensures AllTimes(dfs, p)[k] <= m {
        var t := AllTimes(dfs, p)[k];
        assert t in AllTimes(dfs, p);
        var x :| x in c && t <= x;
      }
    }
  }

  /** The result depends only on which timestamps are valid, not on how they are spread
      over the frames or in which order the frames come. */
  lemma {:induction false} LastRefreshSameTimes(a: seq<Option<Frame>>, b: seq<Option<Frame>>, p: Parsers)
    requires forall t :: t in AllTimes(a, p) <==> t in AllTimes(b, p)
    ensures LastRefresh(a, p) == LastRefresh(b, p)
  {
    LastRefreshSpec(a, p);
    LastRefreshSpec(b, p);
    var ta, tb := AllTimes(a, p), AllTimes(b, p);
    if |ta| > 0 && |tb| > 0 {
      var x, y := LastRefresh(a, p).value, LastRefresh(b, p).value;
      var i :| 0 <= i < |tb| && tb[i] == x;
      var j :| 0 <= j < |ta| && ta[j] == y;
    }
  }

  /** Lines 12-21: the loop over the frames, skipping the ineligible ones and appending the
      latest valid timestamp of each other one. */
  method CollectCandidates(dfs: seq<Option<Frame>>, p: Parsers) returns (candidates: seq<int>)
    ensures candidates == Candidates(dfs, p)
  {
    candidates := [];
    for i := 0 to |dfs|
      invariant candidates == Candidates(dfs[..i], p)
    {
      var df := dfs[i];
      assert dfs[..i + 1] == dfs[..i] + [df];
      FilterMapSnoc(dfs[..i], df, CandidateOf(p));
      if df.None? || df.value.Empty() || "ts_utc" !in df.value.columns {
        continue;
      }
      var ts := ValidTimes(df.value, p);
      if |ts| > 0 {
        candidates := candidates + [MaxOf(ts)];
      }
    }
    assert dfs[..|dfs|] == dfs;
  }

  /** Lines 12-23: the candidates, then the latest of them. */
  method SafeLastRefresh(dfs: seq<Option<Frame>>, p: Parsers) returns (r: Option<int>)
    ensures r == LastRefresh(dfs, p)
    ensures r.None? <==> |AllTimes(dfs, p)| == 0
    ensures r.Some? ==>
      && r.value in AllTimes(dfs, p)
      && forall k :: 0 <= k < |AllTimes(dfs, p)| ==> AllTimes(dfs, p)[k] <= r.value
  {
    var candidates := CollectCandidates(dfs, p);
    LastRefreshSpec(dfs, p);
    if |candidates| == 0 {
      return None;
    }
    r := Some(MaxOf(candidates));
  }

  // ---------------------------------------------------------------- metrics

  /** Lines 41-45: `float(aave["tvl_usd"].iloc[0])`, None ("N/A") for the KeyError, the
      IndexError or the failed conversion the `except` catches. */
  function AaveTvl(aave: Frame, p: Parsers): (r: Option<real>)
    ensures r.Some? <==> "tvl_usd" in aave.columns && |aave.rows| > 0
                         && ToFloat(Get(aave.rows[0], "tvl_usd"), p).Some?
    ensures r.Some? ==> r == ToFloat(Get(aave.rows[0], "tvl_usd"), p)
  {
    if "tvl_usd" in aave.columns && |aave.rows| > 0 then ToFloat(Get(aave.rows[0], "tvl_usd"), p) else None
  }

  predicate IsEth(row: Row) {
    Get(row, "asset_symbol") == Str("ETH")
  }

  /** `prices[prices["asset_symbol"] == "ETH"]`: the ETH rows, in order. */
  function EthRows(rows: seq<Row>): (r: seq<Row>)
    ensures |r| <= |rows|
    ensures forall k :: 0 <= k < |r| ==> IsEth(r[k])
    ensures (exists i :: 0 <= i < |rows| && IsEth(rows[i])) <==> |r| > 0
    ensures |r| > 0 ==> exists i :: 0 <= i < |rows| && rows[i] == r[0]
                          && forall j :: 0 <= j < i ==> !IsEth(rows[j])
  {
    if rows == [] then []
    else
      var rest := EthRows(rows[1..]);
      assert forall i :: 0 < i < |rows| ==> rows[i] == rows[1..][i - 1];
      if IsEth(rows[0]) then [rows[0]] + rest
      else if |rest| > 0 then
        ghost var i :| 0 <= i < |rows[1..]| && rows[1..][i] == rest[0]
                       && forall j :: 0 <= j < i ==> !IsEth(rows[1..][j]);
        assert rows[i + 1] == rest[0];
        rest
      else rest
  }

  /** The price of the first row `f` holds that satisfies the guard of lines 48-52. */
  function PriceOfFirst(f: Frame, p: Parsers): Option<real> {
    if |f.rows| > 0 && |f.columns| > 0 && "price_usd" in f.columns then ToFloat(Get(f.rows[0], "price_usd"), p)
    else None
  }

  /** Line 47 as written: on a non-empty frame without an `asset_symbol` column the mask is
      an empty boolean Series, which pandas refuses as an indexer with an IndexingError that
      no `try` around it catches. */
  function EthPriceAsWritten(prices: Frame, p: Parsers): (r: Result<Option<real>, PyError>)
    ensures r.Err? <==> !prices.Empty() && "asset_symbol" !in prices.columns
    ensures r.Err? ==> r.error == IndexingError
  {
    if prices.Empty() then Ok(PriceOfFirst(prices, p))
    else if "asset_symbol" !in prices.columns then Err(IndexingError)
    else Ok(PriceOfFirst(Frame(prices.columns, EthRows(prices.rows)), p))
  }

  /** Lines 47-54 as intended: the price of the first ETH row, None ("N/A") when there is no
      ETH row, no `price_usd` column, or a price that does not convert. */
  function EthPrice(prices: Frame, p: Parsers): (r: Option<real>)
    ensures r.Some? ==> "price_usd" in prices.columns && "asset_symbol" in prices.columns
    ensures r.Some? ==> exists i :: 0 <= i < |prices.rows| && IsEth(prices.rows[i])
                          && (forall j :: 0 <= j < i ==> !IsEth(prices.rows[j]))
                          && r == ToFloat(Get(prices.rows[i], "price_usd"), p)
    ensures (!prices.Empty() && "asset_symbol" in prices.columns && "price_usd" in prices.columns
             && (exists i :: 0 <= i < |prices.rows| && IsEth(prices.rows[i])
                   && (forall j :: 0 <= j < i ==> !IsEth(prices.rows[j]))
                   && ToFloat(Get(prices.rows[i], "price_usd"), p).Some?)) ==> r.Some?
  {
    if prices.Empty() || "asset_symbol" !in prices.columns then None
    else
      var eth := EthRows(prices.rows);
      if |eth| > 0 then
        FirstIsFirst(prices.rows, eth);
        PriceOfFirst(Frame(prices.columns, eth), p)
      else None
  }

  /** Two rows that both come first among the ETH rows are the same row. */
  lemma {:induction false} FirstIsFirst(rows: seq<Row>, eth: seq<Row>)
    requires eth == EthRows(rows) && |eth| > 0
    ensures forall i :: 0 <= i < |rows| && IsEth(rows[i]) && (forall j :: 0 <= j < i ==> !IsEth(rows[j])) ==>
              rows[i] == eth[0]
  {
    var i0 :| 0 <= i0 < |rows| && rows[i0] == eth[0] && forall j :: 0 <= j < i0 ==> !IsEth(rows[j]);
    forall i | 0 <= i < |rows| && IsEth(rows[i]) && (forall j :: 0 <= j < i ==> !IsEth(rows[j]))
      ensures rows[i] == eth[0]
    {
    }
  }

  /** Wherever line 47 does not raise, it agrees with the intended reading. */
  lemma EthPriceAgrees(prices: Frame, p: Parsers)
    requires EthPriceAsWritten(prices, p).Ok?
    ensures EthPriceAsWritten(prices, p).value == EthPrice(prices, p)
  {
  }

  /** The input that shows the IndexingError: one price row, with no `asset_symbol`
      column. The intended reading answers "N/A". */
  lemma EthPriceWithoutSymbolFails(p: Parsers)
    ensures var prices := Frame(["price_usd"], [map["price_usd" := Num(3000.0)]]);
            EthPriceAsWritten(prices, p) == Err(IndexingError) && EthPrice(prices, p) == None
  {
  }

  // ---------------------------------------------------------------- the page

  /** What the page shows once the marts exist: the last refresh (None is the warning
      that timestamps are missing), the two metrics (None is "N/A") and the number of risk
      scenarios. Raised is a script that ended with an exception after drawing the refresh
      and the Aave TVL. */
  datatype HomeView =
    | NoMarts
    | Ready(lastRefresh: Option<int>, aaveTvl: Option<real>, ethPrice: Option<real>, scenarios: int)
    | Raised(lastRefresh: Option<int>, aaveTvl: Option<real>, error: PyError)

  /** Lines 25-68 as written: a non-empty price frame without `asset_symbol` makes line 47
      raise, which ends the script after the refresh and the Aave TVL are drawn; otherwise the
      page of `HomePage`. */
  method HomePageAsWritten(martsExist: bool, prices: Frame, aave: Frame, risk: Frame, p: Parsers)
    returns (v: HomeView)
    ensures !martsExist <==> v == NoMarts
    ensures v.Raised? <==> martsExist && !prices.Empty() && "asset_symbol" !in prices.columns
    ensures !v.NoMarts? ==>
      && v.lastRefresh == LastRefresh([Some(prices), Some(aave), Some(risk)], p)
      && v.aaveTvl == AaveTvl(aave, p)
    ensures v.Raised? ==> v.error == IndexingError
    ensures v.Ready? ==> v.ethPrice == EthPrice(prices, p) && v.scenarios == |risk.rows|
  {
    if !martsExist {
      return NoMarts;
    }
    var last := SafeLastRefresh([Some(prices), Some(aave), Some(risk)], p);
    var tvl := AaveTvl(aave, p);
    var eth := EthPriceAsWritten(prices, p);
    if eth.Err? {
      return Raised(last, tvl, eth.error);
    }
    EthPriceAgrees(prices, p);
    v := Ready(last, tvl, eth.value, |risk.rows|);
  }

  /** Lines 25-68 with line 47 as intended: nothing but the warning unless all three mart
      files exist; otherwise the refresh over (prices, aave, risk), the Aave TVL, the ETH
      price and `len(risk)`. */
  method HomePage(martsExist: bool, prices: Frame, aave: Frame, risk: Frame, p: Parsers) returns (v: HomeView)
    ensures !martsExist <==> v == NoMarts
    ensures martsExist ==> v.Ready?
    ensures v.Ready? ==>
      && v.lastRefresh == LastRefresh([Some(prices), Some(aave), Some(risk)], p)
      && (v.lastRefresh.None? <==> |AllTimes([Some(prices), Some(aave), Some(risk)], p)| == 0)
      && v.aaveTvl == AaveTvl(aave, p)
      && v.ethPrice == EthPrice(prices, p)
      && v.scenarios == |risk.rows|
  {
    if !martsExist {
      return NoMarts;
    }
    var last := SafeLastRefresh([Some(prices), Some(aave), Some(risk)], p);
    v := Ready(last, AaveTvl(aave, p), EthPrice(prices, p), |risk.rows|);
  }
}
