/** The mart builders (pipelines/transform/marts.py). Each copies its input frame and returns
    a new one, so each is a function of its input; an exception it lets escape is an `Err`. */
module Marts {
  import opened Values
  import opened Seqs
  import opened Frames

  const DimPriceColumns: seq<string> := ["asset_symbol", "price_usd", "ts_utc"]
  const SnapshotColumns: seq<string> := ["protocol", "tvl_usd", "category", "ts_utc", "source"]
  const DefaultProtocol: Value := Str("Aave")
  const RiskColumns: seq<string> := ["scenario", "estimated_liquidatable_usd", "ts_utc"]
  const Scenarios: seq<string> := ["ETH -10%", "ETH -20%", "ETH -30%"]

  // ---------------------------------------------------------------- build_dim_prices

  /** A raw price row after the coercion of line 5 and the `dropna` of line 6, cut to the
      three columns of line 7: kept when its symbol and timestamp are not null and its
      price coerces to a number. */
  function PriceRow(row: Row, p: Parsers): Option<Row> {
    var price := ToFloat(Get(row, "price_usd"), p);
    if Get(row, "asset_symbol").Null? || price.None? || Get(row, "ts_utc").Null? then None
    else Some(map["asset_symbol" := Get(row, "asset_symbol"), "price_usd" := Num(price.value),
                  "ts_utc" := Get(row, "ts_utc")])
  }

  function PriceRowOf(p: Parsers): Row -> Option<Row> {
    row => PriceRow(row, p)
  }

  /** `build_dim_prices`: a KeyError for a missing `price_usd` (line 5) and, after that, for
      whichever of the three columns `dropna` does not find (line 6); otherwise the clean
      rows with exactly the three columns, never more rows than came in. */
  function BuildDimPrices(raw: Frame, p: Parsers): (r: Result<Frame, PyError>)
    ensures "price_usd" !in raw.columns ==> r == Err(KeyError(["price_usd"]))
    ensures "price_usd" in raw.columns ==>
      (r.Ok? <==> "asset_symbol" in raw.columns && "ts_utc" in raw.columns)
    ensures r.Ok? ==> r.value.columns == DimPriceColumns && |r.value.rows| <= |raw.rows|
  {
    if "price_usd" !in raw.columns then Err(KeyError(["price_usd"]))
    else if "asset_symbol" !in raw.columns || "ts_utc" !in raw.columns then Err(KeyError(Missing(raw, DimPriceColumns)))
    else Ok(Frame(DimPriceColumns, FilterMap(raw.rows, PriceRowOf(p))))
  }

  /** Every price row that comes out has a symbol, a numeric price and a timestamp, holds
      those three cells and no others, and comes from a raw row with the same symbol and
      timestamp whose price coerces to that number. */
  lemma DimPricesClean(raw: Frame, p: Parsers, k: nat)
    requires BuildDimPrices(raw, p).Ok? && k < |BuildDimPrices(raw, p).value.rows|
    ensures var out := BuildDimPrices(raw, p).value.rows[k];
      && out.Keys == {"asset_symbol", "price_usd", "ts_utc"}
      && !out["asset_symbol"].Null? && out["price_usd"].Num? && !out["ts_utc"].Null?
      && exists i :: 0 <= i < |raw.rows|
           && Get(raw.rows[i], "asset_symbol") == out["asset_symbol"]
           && Get(raw.rows[i], "ts_utc") == out["ts_utc"]
           && ToFloat(Get(raw.rows[i], "price_usd"), p) == Some(out["price_usd"].n)
  {
    FilterMapImage(raw.rows, PriceRowOf(p), k);
  }

  /** Conversely, a raw row with a symbol, a timestamp and a price that coerces is not
      dropped. */
  lemma DimPricesKeep(raw: Frame, p: Parsers, i: nat)
    requires BuildDimPrices(raw, p).Ok? && i < |raw.rows|
    requires !Get(raw.rows[i], "asset_symbol").Null? && !Get(raw.rows[i], "ts_utc").Null?
    requires ToFloat(Get(raw.rows[i], "price_usd"), p).Some?
    ensures map["asset_symbol" := Get(raw.rows[i], "asset_symbol"),
                "price_usd" := Num(ToFloat(Get(raw.rows[i], "price_usd"), p).value),
                "ts_utc" := Get(raw.rows[i], "ts_utc")]
            in BuildDimPrices(raw, p).value.rows
  {
    FilterMapMember(raw.rows, PriceRowOf(p), PriceRow(raw.rows[i], p).value);
  }

  // ---------------------------------------------------------------- build_fact_protocol_snapshot

  /** `[c for c in candidates if c in columns]`. */
  function Present(candidates: seq<string>, columns: seq<string>): (r: seq<string>)
    ensures forall c :: c in r <==> c in candidates && c in columns
  {
    if candidates == [] then []
    else Present(candidates[..|candidates| - 1], columns)
         + (if candidates[|candidates| - 1] in columns then [candidates[|candidates| - 1]] else [])
  }

  /** Line 12 on every row: the TVL coerced to a number, 0.0 when it does not parse. */
  function TvlCells(df: Frame, p: Parsers): (cells: seq<Value>)
    ensures |cells| == |df.rows|
    ensures forall k :: 0 <= k < |df.rows| ==> cells[k] == Num(NumberOrZero(Get(df.rows[k], "tvl_usd"), p))
  {
    seq(|df.rows|, k requires 0 <= k < |df.rows| => Num(NumberOrZero(Get(df.rows[k], "tvl_usd"), p)))
  }

  /** Line 13 on every row: a null protocol becomes "Aave". */
  function ProtocolCells(df: Frame): (cells: seq<Value>)
    ensures |cells| == |df.rows|
    ensures forall k :: 0 <= k < |df.rows| ==>
      cells[k] == (if Get(df.rows[k], "protocol").Null? then DefaultProtocol else Get(df.rows[k], "protocol"))
  {
    seq(|df.rows|, k requires 0 <= k < |df.rows| =>
      if Get(df.rows[k], "protocol").Null? then DefaultProtocol else Get(df.rows[k], "protocol"))
  }

  /** The columns line 16 keeps once `protocol`, `tvl_usd` and `ts_utc` exist. */
  lemma SnapshotKeep(columns: seq<string>)
    requires "protocol" in columns && "tvl_usd" in columns && "ts_utc" in columns
    ensures Present(SnapshotColumns, columns) == ["protocol", "tvl_usd"]
      + (if "category" in columns then ["category"] else []) + ["ts_utc"]
      + (if "source" in columns then ["source"] else [])
  {
    var s := SnapshotColumns;
    var cat := if "category" in columns then ["category"] else [];
    assert s[..1][..0] == [];
    assert Present(s[..1], columns) == ["protocol"];
    assert s[..2][..1] == s[..1];
    assert Present(s[..2], columns) == ["protocol", "tvl_usd"];
    assert s[..3][..2] == s[..2];
    assert Present(s[..3], columns) == ["protocol", "tvl_usd"] + cat;
    assert s[..4][..3] == s[..3];
    assert Present(s[..4], columns) == ["protocol", "tvl_usd"] + cat + ["ts_utc"];
    assert s[..4] == s[..|s| - 1];
  }

  /** `build_fact_protocol_snapshot` as written. Without a `tvl_usd` column, `df.get`
      returns None, `pd.to_numeric(None)` a float NaN and `.fillna` raises AttributeError;
      without a `protocol` column, `df.get` returns the str "Aave" and `.fillna` raises the
      same. */
  function BuildFactProtocolSnapshotAsWritten(raw: Frame, p: Parsers): (r: Result<Frame, PyError>)
    ensures r.Err? <==> "tvl_usd" !in raw.columns || "protocol" !in raw.columns
    ensures r.Ok? ==> r.value == BuildFactProtocolSnapshot(raw, p)
  {
    if "tvl_usd" !in raw.columns then Err(AttributeError("float"))
    else if "protocol" !in raw.columns then Err(AttributeError("str"))
    else Ok(BuildFactProtocolSnapshot(raw, p))
  }

  /** One row after the writes of lines 12-14. */
  function SnapshotCells(row: Row, p: Parsers): Row {
    row["tvl_usd" := Num(NumberOrZero(Get(row, "tvl_usd"), p))]
       ["protocol" := (if Get(row, "protocol").Null? then DefaultProtocol else Get(row, "protocol"))]
       ["ts_utc" := Get(row, "ts_utc")]
  }

  /** The copy after the three column writes of lines 12-14. */
  function Written(raw: Frame, p: Parsers): Frame {
    var d1 := SetColumn(raw, "tvl_usd", TvlCells(raw, p));
    var d2 := SetColumn(d1, "protocol", ProtocolCells(d1));
    SetColumn(d2, "ts_utc", Column(d2, "ts_utc"))
  }

  lemma WrittenSpec(raw: Frame, p: Parsers)
    ensures var d := Written(raw, p);
      && "protocol" in d.columns && "tvl_usd" in d.columns && "ts_utc" in d.columns
      && ("category" in d.columns <==> "category" in raw.columns)
      && ("source" in d.columns <==> "source" in raw.columns)
      && |d.rows| == |raw.rows|
      && forall k :: 0 <= k < |raw.rows| ==> d.rows[k] == SnapshotCells(raw.rows[k], p)
  {
    var d1 := SetColumn(raw, "tvl_usd", TvlCells(raw, p));
    var d2 := SetColumn(d1, "protocol", ProtocolCells(d1));
    forall k | 0 <= k < |raw.rows|
      ensures Written(raw, p).rows[k] == SnapshotCells(raw.rows[k], p)
    {
      assert Get(d1.rows[k], "protocol") == Get(raw.rows[k], "protocol");
      assert Get(d2.rows[k], "ts_utc") == Get(raw.rows[k], "ts_utc");
    }
  }

  /** What one written row shows through the kept columns. */
  lemma KeptCells(row: Row, p: Parsers, keep: seq<string>)
    requires "tvl_usd" in keep && "protocol" in keep && "ts_utc" in keep
    ensures var r := Project(SnapshotCells(row, p), keep);
      && Get(r, "tvl_usd") == Num(NumberOrZero(Get(row, "tvl_usd"), p))
      && Get(r, "protocol") == (if Get(row, "protocol").Null? then DefaultProtocol else Get(row, "protocol"))
      && Get(r, "ts_utc") == Get(row, "ts_utc")
      && ("category" in keep ==> Get(r, "category") == Get(row, "category"))
      && ("source" in keep ==> Get(r, "source") == Get(row, "source"))
  {
  }

  lemma KeptRows(raw: Frame, p: Parsers, d: Frame, keep: seq<string>)
    requires |d.rows| == |raw.rows|
    requires forall k :: 0 <= k < |raw.rows| ==> d.rows[k] == SnapshotCells(raw.rows[k], p)
    requires "tvl_usd" in keep && "protocol" in keep && "ts_utc" in keep
    requires ("category" in keep <==> "category" in raw.columns) && ("source" in keep <==> "source" in raw.columns)
    ensures var f := Select(d, keep);
      forall k :: 0 <= k < |f.rows| ==>
      && Get(f.rows[k], "tvl_usd") == Num(NumberOrZero(Get(raw.rows[k], "tvl_usd"), p))
      && Get(f.rows[k], "protocol") == (if Get(raw.rows[k], "protocol").Null? then DefaultProtocol
                                   else Get(raw.rows[k], "protocol"))
      && Get(f.rows[k], "ts_utc") == Get(raw.rows[k], "ts_utc")
      && ("category" in raw.columns ==> Get(f.rows[k], "category") == Get(raw.rows[k], "category"))
      && ("source" in raw.columns ==> Get(f.rows[k], "source") == Get(raw.rows[k], "source"))
  {
    forall k | 0 <= k < |raw.rows| {
      KeptCells(raw.rows[k], p, keep);
    }
  }

  /** `build_fact_protocol_snapshot` as its defaults intend: a missing `tvl_usd` or
      `protocol` column reads as all-null, so it becomes 0.0 or "Aave". Every row is kept;
      `protocol`, `tvl_usd` and `ts_utc` are always columns, `category` and `source` are
      kept when the input has them, in the fixed snapshot order. */
  function BuildFactProtocolSnapshot(raw: Frame, p: Parsers): (f: Frame)
    ensures f.columns == ["protocol", "tvl_usd"]
      + (if "category" in raw.columns then ["category"] else []) + ["ts_utc"]
      + (if "source" in raw.columns then ["source"] else [])
    ensures |f.rows| == |raw.rows|
    ensures forall k :: 0 <= k < |f.rows| ==>
      && Get(f.rows[k], "tvl_usd") == Num(NumberOrZero(Get(raw.rows[k], "tvl_usd"), p))
      && Get(f.rows[k], "protocol") == (if Get(raw.rows[k], "protocol").Null? then DefaultProtocol
                                   else Get(raw.rows[k], "protocol"))
      && Get(f.rows[k], "ts_utc") == Get(raw.rows[k], "ts_utc")
      && ("category" in raw.columns ==> Get(f.rows[k], "category") == Get(raw.rows[k], "category"))
      && ("source" in raw.columns ==> Get(f.rows[k], "source") == Get(raw.rows[k], "source"))
  {
    var d := Written(raw, p);
    WrittenSpec(raw, p);
    SnapshotKeep(d.columns);
    KeptRows(raw, p, d, Present(SnapshotColumns, d.columns));
    Select(d, Present(SnapshotColumns, d.columns))
  }

  /** The input that shows it: a frame with a protocol and a timestamp but no `tvl_usd`
      column fails as written, where the intended builder gives TVL 0.0. */
  lemma SnapshotWithoutTvlFails(p: Parsers)
    ensures var raw := Frame(["protocol", "ts_utc"], [map["protocol" := Str("Aave V3"), "ts_utc" := Time(0)]]);
      && BuildFactProtocolSnapshotAsWritten(raw, p) == Err(AttributeError("float"))
      && Get(BuildFactProtocolSnapshot(raw, p).rows[0], "tvl_usd") == Num(0.0)
  {
    var raw := Frame(["protocol", "ts_utc"], [map["protocol" := Str("Aave V3"), "ts_utc" := Time(0)]]);
    assert Get(raw.rows[0], "tvl_usd") == Null;
  }

  /** The input that shows it: a frame with a TVL but no `protocol` column fails as
      written, where the intended builder names the protocol "Aave". */
  lemma SnapshotWithoutProtocolFails(p: Parsers)
    ensures var raw := Frame(["tvl_usd", "ts_utc"], [map["tvl_usd" := Num(1.0), "ts_utc" := Time(0)]]);
      && BuildFactProtocolSnapshotAsWritten(raw, p) == Err(AttributeError("str"))
      && Get(BuildFactProtocolSnapshot(raw, p).rows[0], "protocol") == DefaultProtocol
  {
    var raw := Frame(["tvl_usd", "ts_utc"], [map["tvl_usd" := Num(1.0), "ts_utc" := Time(0)]]);
    assert Get(raw.rows[0], "protocol") == Null;
  }

  // ---------------------------------------------------------------- build_fact_risk_placeholder

  /** The kinds of cell `Series.max` can order: numbers, str and timestamps, each only
      against its own kind. */
  predicate Comparable(a: Value, b: Value) {
    (a.Num? && b.Num?) || (a.Str? && b.Str?) || (a.Time? && b.Time?)
  }

  /** Python's `a <= b` on two comparable cells. */
  predicate AtMost(a: Value, b: Value)
    requires Comparable(a, b)
  {
    match a
    case Num(x) => x <= b.n
    case Str(s) => s == b.s || StrLess(s, b.s)
    case Time(t) => t <= b.t
  }

  /** `Series.max()` (line 20): nulls are skipped, all-null or no cells give NaN (null), and
      two cells of different kinds, or a cell of a kind without an order, raise TypeError. */
  function MaxCell(cells: seq<Value>): Result<Value, PyError> {
    if cells == [] then Ok(Null)
    else
      var x := cells[|cells| - 1];
      match MaxCell(cells[..|cells| - 1])
      case Err(e) => Err(e)
      case Ok(m) =>
        if x.Null? then Ok(m)
        else if m.Null? then (if Comparable(x, x) then Ok(x) else Err(TypeError))
        else if !Comparable(m, x) then Err(TypeError)
        else Ok(if AtMost(m, x) then x else m)
  }

  /** The non-null cells of a column are mutually comparable. */
  predicate Orderable(cells: seq<Value>) {
    forall i, j :: 0 <= i < |cells| && 0 <= j < |cells| && !cells[i].Null? && !cells[j].Null? ==>
      Comparable(cells[i], cells[j])
  }

  lemma AtMostTransitive(a: Value, b: Value, c: Value)
    requires Comparable(a, b) && Comparable(b, c) && AtMost(a, b) && AtMost(b, c)
    ensures Comparable(a, c) && AtMost(a, c)
  {
    if a.Str? && a.s != b.s && b.s != c.s {
      StrLessTransitive(a.s, b.s, c.s);
    }
  }

  lemma AtMostTotal(a: Value, b: Value)
    requires Comparable(a, b)
    ensures AtMost(a, b) || AtMost(b, a)
  {
    if a.Str? {
      StrLessTotal(a.s, b.s);
    }
  }

  /** `max()` succeeds exactly when the non-null cells are mutually comparable; it is null
      exactly when every cell is null, and otherwise it is one of the cells and no cell is
      greater. */
  lemma {:induction false} MaxCellSpec(cells: seq<Value>)
    ensures MaxCell(cells).Ok? <==> Orderable(cells)
    ensures MaxCell(cells).Ok? ==>
      && (MaxCell(cells).value.Null? <==> forall k :: 0 <= k < |cells| ==> cells[k].Null?)
      && (!MaxCell(cells).value.Null? ==>
            && MaxCell(cells).value in cells
            && forall k :: 0 <= k < |cells| && !cells[k].Null? ==>
                 Comparable(cells[k], MaxCell(cells).value) && AtMost(cells[k], MaxCell(cells).value))
  {
    if cells != [] {
      var init, x := cells[..|cells| - 1], cells[|cells| - 1];
      MaxCellSpec(init);
      assert forall k :: 0 <= k < |init| ==> init[k] == cells[k];
      var r := MaxCell(init);
      if r.Ok? && !r.value.Null? && !x.Null? {
        var m := r.value;
        if Comparable(m, x) {
          AtMostTotal(m, x);
          forall k | 0 <= k < |cells| && !cells[k].Null?
            ensures Comparable(cells[k], MaxCell(cells).value) && AtMost(cells[k], MaxCell(cells).value)
          {
            if k < |init| && AtMost(m, x) {
              AtMostTransitive(cells[k], m, x);
            }
          }
          forall i, j | 0 <= i < |cells| && 0 <= j < |cells| && !cells[i].Null? && !cells[j].Null?
            ensures Comparable(cells[i], cells[j])
          {
          }
        } else {
          var i :| 0 <= i < |init| && init[i] == m;
          assert !Comparable(cells[i], cells[|cells| - 1]);
        }
      } else if r.Err? {
        assert !Orderable(init);
        var i, j :| 0 <= i < |init| && 0 <= j < |init| && !init[i].Null? && !init[j].Null?
                    && !Comparable(init[i], init[j]);
        assert !Comparable(cells[i], cells[j]);
      } else if !x.Null? {
        assert forall k :: 0 <= k < |init| ==> cells[k].Null?;
        assert Comparable(x, x) ==> Orderable(cells);
        if !Comparable(x, x) {
          assert !Comparable(cells[|cells| - 1], cells[|cells| - 1]);
        }
      }
    }
  }

  /** `build_fact_risk_placeholder`: a KeyError without a `ts_utc` column, the error of
      `max()` when it fails, and otherwise three scenarios, ETH down 10, 20 and 30 percent,
      each with an estimate of 0.0 and the latest timestamp. */
  function BuildFactRiskPlaceholder(dimPrices: Frame): (r: Result<Frame, PyError>)
    ensures "ts_utc" !in dimPrices.columns ==> r == Err(KeyError(["ts_utc"]))
    ensures "ts_utc" in dimPrices.columns ==>
      (r.Ok? <==> Orderable(Column(dimPrices, "ts_utc")))
    ensures r.Ok? ==>
      && r.value.columns == RiskColumns && |r.value.rows| == |Scenarios|
      && forall k :: 0 <= k < |Scenarios| ==>
           && r.value.rows[k].Keys == {"scenario", "estimated_liquidatable_usd", "ts_utc"}
           && r.value.rows[k]["scenario"] == Str(Scenarios[k])
           && r.value.rows[k]["estimated_liquidatable_usd"] == Num(0.0)
           && MaxCell(Column(dimPrices, "ts_utc")).Ok?
           && r.value.rows[k]["ts_utc"] == MaxCell(Column(dimPrices, "ts_utc")).value
  {
    if "ts_utc" !in dimPrices.columns then Err(KeyError(["ts_utc"]))
    else
      MaxCellSpec(Column(dimPrices, "ts_utc"));
      match MaxCell(Column(dimPrices, "ts_utc"))
      case Err(e) => Err(e)
      case Ok(ts) =>
        Ok(Frame(RiskColumns, seq(|Scenarios|, k requires 0 <= k < |Scenarios| =>
          map["scenario" := Str(Scenarios[k]), "estimated_liquidatable_usd" := Num(0.0),
              "ts_utc" := ts])))
  }
}
