/** The macro dashboards page (pages/1_Dashboards.py): its two helpers, `_pct_change` and
    `_pick_ts_column`, and the three sections of its script body over the frames read from
    the marts. Reading the parquet files and every Streamlit call are not modelled: each
    frame comes in as a parameter (an empty frame when the file is missing or unreadable) and
    the page comes out as the data each section would draw, or the reason it stopped. */
module Dashboards {
  import opened Values
  import opened Seqs
  import opened Sorting
  import opened Frames

  // ---------------------------------------------------------------- _pct_change

  /** `series.iloc[i]` on a series of length n: the position it reads, if any. */
  function Position(n: int, i: int): (r: Option<int>)
    ensures r.Some? ==> 0 <= r.value < n
    ensures 0 <= i < n ==> r == Some(i)
    ensures -n <= i < 0 ==> r == Some(n + i)
    ensures (i >= n || i < -n) ==> r.None?
  {
    if 0 <= i < n then Some(i) else if -n <= i < 0 then Some(n + i) else None
  }

  /** `_pct_change(series, periods)`: 0.0 without a series or with fewer than `periods + 1`
      values, 0.0 when the value `periods` steps back is zero, and otherwise the percent
      change from that value to the last. A negative `periods` can make `iloc` fail. */
  function PctChange(series: Option<seq<real>>, periods: int): (r: Result<real, PyError>)
    ensures periods >= 0 ==> r.Ok?
    ensures series.None? || |series.value| < periods + 1 ==> r == Ok(0.0)
  {
    if series.None? || |series.value| < periods + 1 then Ok(0.0)
    else
      var s := series.value;
      var latest := Position(|s|, -1);
      var prev := Position(|s|, -(periods + 1));
      if latest.None? || prev.None? then Err(IndexError)
      else if s[prev.value] == 0.0 then Ok(0.0)
      else Ok((s[latest.value] / s[prev.value] - 1.0) * 100.0)
  }

  /** The percent change undoes itself: applied to the value `periods` steps back it gives
      the last value back, and it is positive exactly when the series rose. */
  lemma PctChangeInverse(s: seq<real>, periods: int)
    requires periods >= 0 && |s| >= periods + 1 && s[|s| - 1 - periods] != 0.0
    ensures var x := PctChange(Some(s), periods).value;
      && s[|s| - 1] == s[|s| - 1 - periods] * (1.0 + x / 100.0)
      && (x > 0.0 <==> s[|s| - 1] / s[|s| - 1 - periods] > 1.0)
  {
    var prev, last := s[|s| - 1 - periods], s[|s| - 1];
    var x := PctChange(Some(s), periods).value;
    assert x == (last / prev - 1.0) * 100.0;
    assert 1.0 + x / 100.0 == last / prev;
  }

  /** A zero base value gives 0.0, never a division by zero. */
  lemma PctChangeZeroBase(s: seq<real>, periods: int)
    requires periods >= 0 && |s| >= periods + 1 && s[|s| - 1 - periods] == 0.0
    ensures PctChange(Some(s), periods) == Ok(0.0)
  {
  }

  // ---------------------------------------------------------------- _pick_ts_column

  const TsCandidates: seq<string> :=
    ["ts_utc", "timestamp", "ts", "datetime", "date", "dt", "block_time", "time"]

  /** `str.lower()` on one character: only A to Z change. */
  function LowerChar(c: char): char {
    if 'A' <= c <= 'Z' then (c as int - 'A' as int + 'a' as int) as char else c
  }

  function Lower(s: string): (r: string)
    ensures |r| == |s| && forall k :: 0 <= k < |s| ==> r[k] == LowerChar(s[k])
  {
    seq(|s|, k requires 0 <= k < |s| => LowerChar(s[k]))
  }

  /** Python's `sub in s` on two str. */
  predicate Contains(s: string, sub: string) {
    |sub| <= |s| && (s[..|sub|] == sub || Contains(s[1..], sub))
  }

  /** A column name that reads as a time: its lower-cased form contains "ts", "time" or
      "date". */
  predicate TimeLike(name: string) {
    Contains(Lower(name), "ts") || Contains(Lower(name), "time") || Contains(Lower(name), "date")
  }

  /** The first time-like column, in column order. */
  function FirstTimeLike(columns: seq<string>): (r: Option<string>)
    ensures r.None? <==> forall k :: 0 <= k < |columns| ==> !TimeLike(columns[k])
    ensures r.Some? ==> exists k :: 0 <= k < |columns| && columns[k] == r.value && TimeLike(r.value)
                         && forall j :: 0 <= j < k ==> !TimeLike(columns[j])
  {
    if columns == [] then None
    else if TimeLike(columns[0]) then Some(columns[0])
    else
      var r := FirstTimeLike(columns[1..]);
      assert forall k :: 0 < k < |columns| ==> columns[k] == columns[1..][k - 1];
      if r.Some? then
        ghost var k :| 0 <= k < |columns[1..]| && columns[1..][k] == r.value && TimeLike(r.value)
                       && forall j :: 0 <= j < k ==> !TimeLike(columns[1..][j]);
        assert columns[k + 1] == r.value;
        r
      else r
  }

  /** `_pick_ts_column`: the first of its fixed names that is a column; failing that, the
      first time-like column; failing that, None. Whatever it names is a column. */
  function PickTsColumn(columns: seq<string>): (r: Option<string>)
    ensures r.Some? ==> r.value in columns
    ensures (exists i :: 0 <= i < |TsCandidates| && TsCandidates[i] in columns) ==>
      exists i :: 0 <= i < |TsCandidates| && r == Some(TsCandidates[i])
        && forall j :: 0 <= j < i ==> TsCandidates[j] !in columns
    ensures (forall i :: 0 <= i < |TsCandidates| ==> TsCandidates[i] !in columns) ==>
      && (r.None? <==> forall k :: 0 <= k < |columns| ==> !TimeLike(columns[k]))
      && (r.Some? ==> exists k :: 0 <= k < |columns| && columns[k] == r.value && TimeLike(r.value)
                        && forall j :: 0 <= j < k ==> !TimeLike(columns[j]))
  {
    var fixed := FirstPresent(TsCandidates, columns);
    if fixed.Some? then fixed else FirstTimeLike(columns)
  }

  // ---------------------------------------------------------------- column fallbacks

  const TvlFallbacks: seq<string> := ["tvl", "tvlUsd", "tvl_usd_value", "total_tvl_usd", "tvlUSD"]
  const CategoryFallbacks: seq<string> := ["name", "cat", "sector"]
  const PanelTvlFallbacks: seq<string> := ["tvl", "tvlUSD", "tvlUsd"]

  /** The column a section reads a quantity from: `preferred` when it is a column, otherwise
      the first fallback that is one; None makes the section stop. */
  function ColumnFor(preferred: string, fallbacks: seq<string>, columns: seq<string>): (r: Option<string>)
    ensures preferred in columns ==> r == Some(preferred)
    ensures preferred !in columns ==> r == FirstPresent(fallbacks, columns)
    ensures r.Some? ==> r.value in columns
  {
    if preferred in columns then Some(preferred) else FirstPresent(fallbacks, columns)
  }

  /** A row's TVL as the panels sort it, once the column holds numbers. */
  function RowTvl(row: Row): real {
    if Get(row, "tvl_usd").Num? then Get(row, "tvl_usd").n else 0.0
  }

  // ---------------------------------------------------------------- the sections

  /** Why a section called `st.stop()`. */
  datatype Stop = MissingMarts | NoTimestampColumn | NoTvlColumn | NoCategoryColumn
                | NoCategoryTvlColumn | NoProtocolTvlColumn

  /** What a section shows: nothing because an earlier section stopped the page, the
      "not available yet" note, the stop of this section, or its content. */
  datatype Section<T> = Skipped | Unavailable | Halted(why: Stop) | Shown(content: T)

  datatype Point = Point(ts: int, tvl: real)

  function PointTs(q: Point): real { q.ts as real }

  /** The KPI cards and the trend line of the TVL section. */
  datatype TvlView = TvlView(latestTvl: real, change7d: real, trend: seq<Point>)

  /** A TVL row as the trend keeps it: a timestamp and a value that both coerce. */
  function RawPoint(row: Row, tsCol: string, valCol: string, p: Parsers): Option<Point> {
    var ts := ToDatetime(Get(row, tsCol), p);
    var v := ToFloat(Get(row, valCol), p);
    if ts.Some? && v.Some? then Some(Point(ts.value, v.value)) else None
  }

  function RawPointOf(tsCol: string, valCol: string, p: Parsers): Row -> Option<Point> {
    row => RawPoint(row, tsCol, valCol, p)
  }

  /** The points of the TVL frame, in row order, before sorting. */
  function TrendPoints(tvl: Frame, tsCol: string, valCol: string, p: Parsers): seq<Point> {
    FilterMap(tvl.rows, RawPointOf(tsCol, valCol, p))
  }

  /** A row of the converted frame that `dropna` keeps. */
  function CleanPoint(row: Row): Option<Point> {
    if Get(row, "ts_utc").Time? && Get(row, "tvl_usd").Num? then
      Some(Point(Get(row, "ts_utc").t, Get(row, "tvl_usd").n))
    else None
  }

  function DatetimeCell(v: Value, p: Parsers): Value {
    var t := ToDatetime(v, p);
    if t.Some? then Time(t.value) else Null
  }

  function NumericCell(v: Value, p: Parsers): Value {
    var x := ToFloat(v, p);
    if x.Some? then Num(x.value) else Null
  }

  function Tvls(points: seq<Point>): (r: seq<real>)
    ensures |r| == |points| && forall k :: 0 <= k < |points| ==> r[k] == points[k].tvl
  {
    seq(|points|, k requires 0 <= k < |points| => points[k].tvl)
  }

  /** The TVL frame after lines 80-90: `ts_utc` holds the coerced timestamps of `tsCol`,
      `tvl_usd` the coerced values of `valCol`. */
  function ConvertedTvl(tvl: Frame, tsCol: string, valCol: string, p: Parsers): Frame {
    WithNumbers(WithTimes(tvl, tsCol, p), valCol, p)
  }

  /** Line 80: `ts_utc` becomes the coerced timestamps of `tsCol`. */
  function WithTimes(tvl: Frame, tsCol: string, p: Parsers): Frame {
    SetColumn(tvl, "ts_utc", seq(|tvl.rows|, k requires 0 <= k < |tvl.rows| =>
                                   DatetimeCell(Get(tvl.rows[k], tsCol), p)))
  }

  /** Lines 88 and 90: `tvl_usd` becomes the coerced values of `valCol`. */
  function WithNumbers(df: Frame, valCol: string, p: Parsers): Frame {
    SetColumn(df, "tvl_usd", seq(|df.rows|, k requires 0 <= k < |df.rows| =>
                                   NumericCell(Get(df.rows[k], valCol), p)))
  }

  /** `dropna(subset=["ts_utc", "tvl_usd"])` on the converted frame keeps exactly the rows
      whose timestamp and value coerce. */
  lemma ConvertedTrend(tvl: Frame, tsCol: string, valCol: string, p: Parsers)
    requires valCol != "ts_utc"
    ensures FilterMap(ConvertedTvl(tvl, tsCol, valCol, p).rows, CleanPoint) == TrendPoints(tvl, tsCol, valCol, p)
  {
    var d := ConvertedTvl(tvl, tsCol, valCol, p);
    forall k | 0 <= k < |tvl.rows|
      ensures CleanPoint(d.rows[k]) == RawPoint(tvl.rows[k], tsCol, valCol, p)
    {
    }
    FilterMapPointwise(d.rows, CleanPoint, tvl.rows, RawPointOf(tsCol, valCol, p));
  }

  /** Lines 92-95 on the parseable points: the trend oldest first, the headline the latest
      value (0.0 without any) and the change `_pct_change` over seven rows. */
  function TvlViewOf(points: seq<Point>): (v: TvlView)
    ensures Ordered(v.trend, PointTs, false)
    ensures multiset(v.trend) == multiset(points) && |v.trend| == |points|
    ensures v.latestTvl == (if |points| > 0 then v.trend[|points| - 1].tvl else 0.0)
    ensures forall k :: 0 <= k < |points| ==> v.trend[k].ts <= v.trend[|points| - 1].ts
    ensures PctChange(Some(Tvls(v.trend)), 7) == Ok(v.change7d)
  {
    var trend := Sort(points, PointTs, false);
    var latest := if |trend| > 0 then trend[|trend| - 1].tvl else 0.0;
    TrendLatest(trend);
    TvlView(latest, PctChange(Some(Tvls(trend)), 7).value, trend)
  }

  /** In a trend sorted by time, the last point is the latest. */
  lemma {:induction false} TrendLatest(trend: seq<Point>)
    requires Ordered(trend, PointTs, false)
    ensures forall k :: 0 <= k < |trend| ==> trend[k].ts <= trend[|trend| - 1].ts
  {
    forall k | 0 <= k < |trend| ensures trend[k].ts <= trend[|trend| - 1].ts {
      if k < |trend| - 1 {
        assert InOrder(PointTs(trend[k]), PointTs(trend[|trend| - 1]), false);
      }
    }
  }

  /** The TVL column is never the timestamp column the page writes. */
  lemma TvlColumnIsNotTime(columns: seq<string>)
    ensures ColumnFor("tvl_usd", TvlFallbacks, columns) != Some("ts_utc")
  {
    if "tvl_usd" !in columns && FirstPresent(TvlFallbacks, columns).Some? {
      var i :| 0 <= i < |TvlFallbacks| && TvlFallbacks[i] == FirstPresent(TvlFallbacks, columns).value;
    }
  }

  /** Writing `ts_utc` (line 80) leaves the choice of the TVL column (lines 82-86) as it
      was, and that column is not `ts_utc`. */
  lemma TvlColumnAfterTimes(tvl: Frame, tsCol: string, p: Parsers)
    ensures ColumnFor("tvl_usd", TvlFallbacks, WithTimes(tvl, tsCol, p).columns)
         == ColumnFor("tvl_usd", TvlFallbacks, tvl.columns)
    ensures ColumnFor("tvl_usd", TvlFallbacks, tvl.columns) != Some("ts_utc")
  {
    var cs := WithTimes(tvl, tsCol, p).columns;
    assert forall c :: c != "ts_utc" ==> (c in cs <==> c in tvl.columns);
    FirstPresentSame(TvlFallbacks, tvl.columns, cs);
    TvlColumnIsNotTime(tvl.columns);
  }

  /** Lines 70-95: the TVL section. It stops on an empty frame, on a frame without a
      timestamp column and on one without a TVL column; otherwise it shows the view of every
      point whose timestamp and value coerce. */
  method TvlSection(tvl: Frame, p: Parsers) returns (s: Section<TvlView>)
    ensures s.Halted? || s.Shown?
    ensures s.Halted? ==> s.why in {MissingMarts, NoTimestampColumn, NoTvlColumn}
    ensures tvl.Empty() ==> s == Halted(MissingMarts)
    ensures !tvl.Empty() && PickTsColumn(tvl.columns).None? ==> s == Halted(NoTimestampColumn)
    ensures (!tvl.Empty() && PickTsColumn(tvl.columns).Some?
             && ColumnFor("tvl_usd", TvlFallbacks, tvl.columns).None?) ==> s == Halted(NoTvlColumn)
    ensures s.Shown? ==>
      && PickTsColumn(tvl.columns).Some? && ColumnFor("tvl_usd", TvlFallbacks, tvl.columns).Some?
      && s.content == TvlViewOf(TrendPoints(tvl, PickTsColumn(tvl.columns).value,
                                            ColumnFor("tvl_usd", TvlFallbacks, tvl.columns).value, p))
  {
    if tvl.Empty() {
      return Halted(MissingMarts);
    }
    var tsCol := PickTsColumn(tvl.columns);
    if tsCol.None? {
      return Halted(NoTimestampColumn);
    }
    var df := WithTimes(tvl, tsCol.value, p);
    TvlColumnAfterTimes(tvl, tsCol.value, p);
    var valCol := ColumnFor("tvl_usd", TvlFallbacks, df.columns);
    if valCol.None? {
      return Halted(NoTvlColumn);
    }
    df := WithNumbers(df, valCol.value, p);
    ConvertedTrend(tvl, tsCol.value, valCol.value, p);
    s := Shown(TvlViewOf(FilterMap(df.rows, CleanPoint)));
  }

  /** Lines 116-119: `category` copied from the fallback column when it is missing. */
  function WithCategory(cats: Frame, catCol: string): Frame {
    if catCol != "category" then SetColumn(cats, "category", Column(cats, catCol)) else cats
  }

  /** Lines 124-127 and 144-147: `tvl_usd` copied from the fallback column when it is
      missing. */
  function WithTvlFrom(df: Frame, tvlCol: string): Frame {
    if tvlCol != "tvl_usd" then SetColumn(df, "tvl_usd", Column(df, tvlCol)) else df
  }

  /** Lines 132 and 152: `tvl_usd` coerced to numbers, 0.0 for what does not parse. */
  function WithTvlNumbers(df: Frame, p: Parsers): Frame {
    SetColumn(df, "tvl_usd", seq(|df.rows|, k requires 0 <= k < |df.rows| =>
                                   Num(NumberOrZero(Get(df.rows[k], "tvl_usd"), p))))
  }

  /** The category frame after lines 116-132: the category column filled from its fallback
      when missing, the TVL column likewise, then coerced with 0.0 for what does not
      parse. */
  function CategoryPanelFrame(cats: Frame, catCol: string, tvlCol: string, p: Parsers): (f: Frame)
    requires tvlCol != "category"
    ensures |f.rows| == |cats.rows|
    ensures forall k :: 0 <= k < |f.rows| ==>
      && Get(f.rows[k], "category") == Get(cats.rows[k], catCol)
      && Get(f.rows[k], "tvl_usd") == Num(NumberOrZero(Get(cats.rows[k], tvlCol), p))
  {
    var d2 := WithTvlFrom(WithCategory(cats, catCol), tvlCol);
    assert forall k :: 0 <= k < |d2.rows| ==> Get(d2.rows[k], "tvl_usd") == Get(cats.rows[k], tvlCol);
    WithTvlNumbers(d2, p)
  }

  /** Writing `category` (line 119) leaves the choice of the TVL column (lines 124-127) as
      it was, and that column is not `category`. */
  lemma CategoryTvlColumnAfter(cats: Frame, catCol: string)
    ensures ColumnFor("tvl_usd", PanelTvlFallbacks, WithCategory(cats, catCol).columns)
         == ColumnFor("tvl_usd", PanelTvlFallbacks, cats.columns)
    ensures ColumnFor("tvl_usd", PanelTvlFallbacks, cats.columns) != Some("category")
  {
    var cs := WithCategory(cats, catCol).columns;
    assert forall c :: c != "category" ==> (c in cs <==> c in cats.columns);
    FirstPresentSame(PanelTvlFallbacks, cats.columns, cs);
    var r := ColumnFor("tvl_usd", PanelTvlFallbacks, cats.columns);
    if "tvl_usd" !in cats.columns && r.Some? {
      var i :| 0 <= i < |PanelTvlFallbacks| && PanelTvlFallbacks[i] == r.value;
    }
  }

  const CategoryPanelSize: int := 12

  /** Lines 113-136: the category panel. Nothing to show for an empty frame; a stop when no
      category or no TVL column is found; otherwise the twelve rows with the highest TVL,
      highest first. */
  method CategorySection(cats: Frame, p: Parsers) returns (s: Section<seq<Row>>)
    ensures cats.Empty() <==> s == Unavailable
    ensures s.Halted? ==> s.why == NoCategoryColumn || s.why == NoCategoryTvlColumn
    ensures !cats.Empty() && ColumnFor("category", CategoryFallbacks, cats.columns).None? ==>
      s == Halted(NoCategoryColumn)
    ensures !cats.Empty() && ColumnFor("category", CategoryFallbacks, cats.columns).Some?
            && ColumnFor("tvl_usd", PanelTvlFallbacks, cats.columns).None? ==>
      s == Halted(NoCategoryTvlColumn)
    ensures s.Shown? ==>
      && ColumnFor("category", CategoryFallbacks, cats.columns).Some?
      && ColumnFor("tvl_usd", PanelTvlFallbacks, cats.columns).Some?
      && s.content == Top(CategoryPanelFrame(cats, ColumnFor("category", CategoryFallbacks, cats.columns).value,
                                             ColumnFor("tvl_usd", PanelTvlFallbacks, cats.columns).value, p).rows,
                          RowTvl, CategoryPanelSize)
    ensures s.Unavailable? || s.Halted? || s.Shown?
  {
    if cats.Empty() {
      return Unavailable;
    }
    var df := cats;
    var catCol := ColumnFor("category", CategoryFallbacks, cats.columns);
    if catCol.None? {
      return Halted(NoCategoryColumn);
    }
    df := WithCategory(df, catCol.value);
    CategoryTvlColumnAfter(cats, catCol.value);
    var tvlCol := ColumnFor("tvl_usd", PanelTvlFallbacks, df.columns);
    if tvlCol.None? {
      return Halted(NoCategoryTvlColumn);
    }
    df := WithTvlFrom(df, tvlCol.value);
    df := WithTvlNumbers(df, p);
    s := Shown(Top(df.rows, RowTvl, CategoryPanelSize));
  }

  const ProtocolDisplay: seq<string> :=
    ["name", "category", "chain", "tvl_usd", "change_1d_pct", "change_7d_pct", "change_1m_pct"]
  const ProtocolExtras: seq<string> :=
    ["name", "category", "chain", "change_1d_pct", "change_7d_pct", "change_1m_pct"]
  const ProtocolPanelSize: int := 20

  /** The protocol frame after lines 144-152: the TVL column filled from its fallback when
      missing, then coerced with 0.0 for what does not parse. Every other cell is left as it
      was. */
  function ProtocolPanelFrame(prot: Frame, tvlCol: string, p: Parsers): (f: Frame)
    ensures |f.rows| == |prot.rows|
    ensures forall c :: c in f.columns <==> c in prot.columns || c == "tvl_usd"
    ensures forall k :: 0 <= k < |f.rows| ==>
      Get(f.rows[k], "tvl_usd") == Num(NumberOrZero(Get(prot.rows[k], tvlCol), p))
    ensures forall k, c :: 0 <= k < |f.rows| && c != "tvl_usd" ==> Get(f.rows[k], c) == Get(prot.rows[k], c)
  {
    var d := WithTvlFrom(prot, tvlCol);
    assert forall k :: 0 <= k < |d.rows| ==> Get(d.rows[k], "tvl_usd") == Get(prot.rows[k], tvlCol);
    WithTvlNumbers(d, p)
  }

  /** `g` is `df` with a null in every row for each name of `added` that `df` lacks. */
  ghost predicate Filled(g: Frame, df: Frame, added: seq<string>) {
    && |g.rows| == |df.rows|
    && forall k, c :: 0 <= k < |g.rows| ==>
         Get(g.rows[k], c) == if c in df.columns || c !in added then Get(df.rows[k], c) else Null
  }

  function NullColumn(g: Frame, c: string): (h: Frame)
    ensures h.columns == if c in g.columns then g.columns else g.columns + [c]
    ensures |h.rows| == |g.rows|
    ensures forall k, d :: 0 <= k < |h.rows| ==> Get(h.rows[k], d) == if d == c && c !in g.columns then Null else Get(g.rows[k], d)
  {
    if c in g.columns then g else SetColumn(g, c, seq(|g.rows|, k requires 0 <= k < |g.rows| => Null))
  }

  lemma FilledStep(g: Frame, df: Frame, added: seq<string>, c: string)
    requires Filled(g, df, added)
    requires forall d :: d in g.columns <==> d in df.columns || d in added
    ensures Filled(NullColumn(g, c), df, added + [c])
  {
    var h := NullColumn(g, c);
    forall k, d | 0 <= k < |h.rows|
      ensures Get(h.rows[k], d) == if d in df.columns || d !in added + [c] then Get(df.rows[k], d) else Null
    {
      assert Get(g.rows[k], d) == if d in df.columns || d !in added then Get(df.rows[k], d) else Null;
    }
  }

  /** Lines 155-157: every name of `cols` that is not a column becomes one, after the
      existing columns, with a null in every row; nothing else changes. */
  method AddMissingColumns(df: Frame, cols: seq<string>) returns (g: Frame)
    ensures |g.columns| >= |df.columns| && g.columns[..|df.columns|] == df.columns
    ensures forall c :: c in g.columns <==> c in df.columns || c in cols
    ensures Filled(g, df, cols)
  {
    g := df;
    for i := 0 to |cols|
      invariant |g.columns| >= |df.columns| && g.columns[..|df.columns|] == df.columns
      invariant forall c :: c in g.columns <==> c in df.columns || c in cols[..i]
      invariant Filled(g, df, cols[..i])
    {
      assert cols[..i + 1] == cols[..i] + [cols[i]];
      FilledStep(g, df, cols[..i], cols[i]);
      g := NullColumn(g, cols[i]);
    }
    assert cols[..|cols|] == cols;
  }

  /** A protocol row as the table shows it: the display columns, null where the frame has
      no such column. */
  function ShownProtocol(row: Row, columns: seq<string>): (r: Row)
    ensures r.Keys == set c | c in ProtocolDisplay
    ensures forall c :: c in ProtocolDisplay ==> r[c] == if c in columns then Get(row, c) else Null
  {
    map c | c in ProtocolDisplay :: if c in columns then Get(row, c) else Null
  }

  /** One row of the filled frame, cut down to the display columns, is the row as shown. */
  lemma ShownRow(g: Frame, df: Frame, k: int)
    requires "tvl_usd" in df.columns
    requires Filled(g, df, ProtocolExtras) && 0 <= k < |g.rows|
    ensures Project(g.rows[k], ProtocolDisplay) == ShownProtocol(df.rows[k], df.columns)
  {
    var a, b := Project(g.rows[k], ProtocolDisplay), ShownProtocol(df.rows[k], df.columns);
    forall c | c in ProtocolDisplay ensures a[c] == b[c] {
      assert Get(g.rows[k], c) == if c in df.columns || c !in ProtocolExtras then Get(df.rows[k], c) else Null;
    }
  }

  /** The sorted, filled and cut-down frame, headed, is the top of the coerced frame as
      shown. */
  lemma ShownTop(df: Frame, filled: Frame)
    requires "tvl_usd" in df.columns
    requires Filled(filled, Frame(df.columns, Sort(df.rows, RowTvl, true)), ProtocolExtras)
    ensures var t := Top(df.rows, RowTvl, ProtocolPanelSize);
            var shown := Head(Select(filled, ProtocolDisplay).rows, ProtocolPanelSize);
            && |shown| == |t|
            && forall k :: 0 <= k < |t| ==> shown[k] == ShownProtocol(t[k], df.columns)
  {
    var sorted := Sort(df.rows, RowTvl, true);
    var t := Top(df.rows, RowTvl, ProtocolPanelSize);
    var shown := Head(Select(filled, ProtocolDisplay).rows, ProtocolPanelSize);
    assert t == Head(sorted, ProtocolPanelSize);
    var selected := Select(filled, ProtocolDisplay).rows;
    forall k | 0 <= k < |t| ensures shown[k] == ShownProtocol(t[k], df.columns) {
      assert t[k] == sorted[k] && shown[k] == selected[k];
      ShownRow(filled, Frame(df.columns, sorted), k);
    }
  }

  /** Lines 140-163: the protocol landscape. Nothing to show for an empty frame; a stop when
      no TVL column is found; otherwise the twenty rows with the highest TVL, highest first,
      each cut down to the display columns with null for a column the frame lacks. */
  method ProtocolSection(prot: Frame, p: Parsers) returns (s: Section<seq<Row>>)
    ensures s.Unavailable? || s.Halted? || s.Shown?
    ensures prot.Empty() <==> s == Unavailable
    ensures s.Halted? ==> s.why == NoProtocolTvlColumn
    ensures !prot.Empty() && ColumnFor("tvl_usd", PanelTvlFallbacks, prot.columns).None? ==>
      s == Halted(NoProtocolTvlColumn)
    ensures s.Shown? ==>
      && !prot.Empty()
      && ColumnFor("tvl_usd", PanelTvlFallbacks, prot.columns).Some?
      && var f := ProtocolPanelFrame(prot, ColumnFor("tvl_usd", PanelTvlFallbacks, prot.columns).value, p);
         var t := Top(f.rows, RowTvl, ProtocolPanelSize);
         && |s.content| == |t|
         && forall k :: 0 <= k < |t| ==> s.content[k] == ShownProtocol(t[k], f.columns)
  {
    if prot.Empty() {
      return Unavailable;
    }
    var tvlCol := ColumnFor("tvl_usd", PanelTvlFallbacks, prot.columns);
    if tvlCol.None? {
      return Halted(NoProtocolTvlColumn);
    }
    var df := WithTvlFrom(prot, tvlCol.value);
    df := WithTvlNumbers(df, p);
    var sorted := Frame(df.columns, Sort(df.rows, RowTvl, true));
    var filled := AddMissingColumns(sorted, ProtocolExtras);
    var shown := Head(Select(filled, ProtocolDisplay).rows, ProtocolPanelSize);
    ShownTop(df, filled);
    s := Shown(shown);
  }

  /** The TVL section's content when it is drawn: the view of the points read from the
      chosen timestamp and TVL columns. */
  predicate TvlShown(tvl: Frame, p: Parsers, v: TvlView) {
    && PickTsColumn(tvl.columns).Some? && ColumnFor("tvl_usd", TvlFallbacks, tvl.columns).Some?
    && v == TvlViewOf(TrendPoints(tvl, PickTsColumn(tvl.columns).value,
                                  ColumnFor("tvl_usd", TvlFallbacks, tvl.columns).value, p))
  }

  /** The category panel's content when it is drawn: the twelve highest-TVL rows of the
      coerced frame, highest first. */
  predicate CategoriesShown(cats: Frame, p: Parsers, content: seq<Row>) {
    && ColumnFor("category", CategoryFallbacks, cats.columns).Some?
    && ColumnFor("tvl_usd", PanelTvlFallbacks, cats.columns).Some?
    && content == Top(CategoryPanelFrame(cats, ColumnFor("category", CategoryFallbacks, cats.columns).value,
                                         ColumnFor("tvl_usd", PanelTvlFallbacks, cats.columns).value, p).rows,
                      RowTvl, CategoryPanelSize)
  }

  /** The protocol panel's content when it is drawn: the twenty highest-TVL rows of the
      coerced frame, highest first, each cut to the display columns. */
  predicate ProtocolsShown(prot: Frame, p: Parsers, content: seq<Row>) {
    && ColumnFor("tvl_usd", PanelTvlFallbacks, prot.columns).Some?
    && var f := ProtocolPanelFrame(prot, ColumnFor("tvl_usd", PanelTvlFallbacks, prot.columns).value, p);
       var t := Top(f.rows, RowTvl, ProtocolPanelSize);
       && |content| == |t|
       && forall k :: 0 <= k < |t| ==> content[k] == ShownProtocol(t[k], f.columns)
  }

  /** What the page draws: each section in turn, and Skipped for those after a stop. */
  datatype Page = Page(tvl: Section<TvlView>, categories: Section<seq<Row>>, protocols: Section<seq<Row>>)

  /** Lines 63-163: the script body. A stop in one section ends the script, so no later
      section is drawn; the TVL section never answers "not available". */
  method DashboardsPage(tvl: Frame, cats: Frame, prot: Frame, p: Parsers) returns (page: Page)
    ensures page.tvl.Halted? || page.tvl.Shown?
    ensures tvl.Empty() ==> page == Page(Halted(MissingMarts), Skipped, Skipped)
    ensures page.categories.Skipped? <==> page.tvl.Halted?
    ensures page.protocols.Skipped? <==> page.tvl.Halted? || page.categories.Halted?
    ensures page.categories.Halted? ==> page.categories.why in {NoCategoryColumn, NoCategoryTvlColumn}
    ensures !page.categories.Skipped? ==> (page.categories.Unavailable? <==> cats.Empty())
    ensures !page.protocols.Skipped? ==> (page.protocols.Unavailable? <==> prot.Empty())
    ensures page.tvl.Halted? ==> page.tvl.why in {MissingMarts, NoTimestampColumn, NoTvlColumn}
    ensures page.protocols.Halted? ==> page.protocols.why == NoProtocolTvlColumn
    ensures page.tvl.Shown? ==> TvlShown(tvl, p, page.tvl.content)
    ensures page.categories.Shown? ==> CategoriesShown(cats, p, page.categories.content)
    ensures page.protocols.Shown? ==> ProtocolsShown(prot, p, page.protocols.content)
  {
    var t := TvlSection(tvl, p);
    if t.Halted? {
      return Page(t, Skipped, Skipped);
    }
    var c := CategorySection(cats, p);
    if c.Halted? {
      return Page(t, c, Skipped);
    }
    var r := ProtocolSection(prot, p);
    page := Page(t, c, r);
  }
}
