/** The payload normalisers of the DefiLlama ingest (pipelines/ingest/defillama_market.py).
    The HTTP call is not modelled: each normaliser takes the decoded JSON payload, with
    `None` standing for the 404 answer, and the fetch-time timestamp as a parameter. */
module Ingest {
  import opened Values
  import opened Seqs
  import opened Sorting

  /** A DataFrame with a fixed column list and one typed record per row. */
  datatype Table<R> = Table(columns: seq<string>, rows: seq<R>) {
    /** pandas' `DataFrame.empty`: no columns or no rows. */
    predicate Empty() { |columns| == 0 || |rows| == 0 }
  }

  const Source: string := "defillama"
  const ChartColumns: seq<string> := ["ts_utc", "tvl_usd", "source"]
  const ProtocolColumns: seq<string> :=
    ["name", "slug", "category", "chain", "tvl_usd", "change_1d_pct", "change_7d_pct",
     "change_1m_pct", "ts_utc", "source"]
  const CategoryColumns: seq<string> := ["category", "tvl_usd", "ts_utc", "source"]

  /** One point of the market-wide TVL series. */
  datatype TvlPoint = TvlPoint(tsUtc: int, tvlUsd: real, source: string)

  /** One protocol of the snapshot; name, slug, category and chain are kept as the payload
      had them. */
  datatype ProtocolRow = ProtocolRow(
    name: Value, slug: Value, category: Value, chain: Value, tvlUsd: real,
    change1dPct: Option<real>, change7dPct: Option<real>, change1mPct: Option<real>,
    tsUtc: string, source: string)

  /** One category with its TVL. */
  datatype CategoryRow = CategoryRow(category: Value, tvlUsd: real, tsUtc: string, source: string)

  function PointTime(r: TvlPoint): real { r.tsUtc as real }

  function ProtocolTvl(r: ProtocolRow): real { r.tvlUsd }

  function CategoryTvl(r: CategoryRow): real { r.tvlUsd }

  /** The records a list-shaped payload holds; none for an absent payload or another shape. */
  function ListItems(payload: Option<Value>): seq<Value> {
    if payload.Some? && payload.value.List? then payload.value.items else []
  }

  // ---------------------------------------------------------------- GET /charts

  /** What a chart record must satisfy to become a row: a dict whose `totalLiquidityUSD`
      float() accepts and whose `date` int() accepts. */
  function ChartRecord(x: Value, p: Parsers): Option<TvlPoint> {
    if x.Dict? && ToFloat(Get(x.fields, "totalLiquidityUSD"), p).Some?
       && ToInt(Get(x.fields, "date"), p).Some?
    then Some(TvlPoint(ToInt(Get(x.fields, "date"), p).value,
                       ToFloat(Get(x.fields, "totalLiquidityUSD"), p).value, Source))
    else None
  }

  function ChartRecordOf(p: Parsers): Value -> Option<TvlPoint> {
    x => ChartRecord(x, p)
  }

  /** The rows of a chart payload before sorting, in payload order. */
  function ChartRows(payload: Option<Value>, p: Parsers): seq<TvlPoint> {
    FilterMap(ListItems(payload), ChartRecordOf(p))
  }

  /** The loop of `fetch_total_defi_tvl_chart` (lines 37-54): visit the records in order,
      skip the ones that fail, append a row for each of the others. */
  method CollectChart(data: seq<Value>, p: Parsers) returns (rows: seq<TvlPoint>)
    ensures rows == FilterMap(data, ChartRecordOf(p))
    ensures forall k :: 0 <= k < |rows| ==> rows[k].source == Source
  {
    rows := [];
    for i := 0 to |data|
      invariant rows == FilterMap(data[..i], ChartRecordOf(p))
      invariant forall k :: 0 <= k < |rows| ==> rows[k].source == Source
    {
      var x := data[i];
      FilterMapSnoc(data[..i], x, ChartRecordOf(p));
      assert data[..i + 1] == data[..i] + [x];
      if !x.Dict? {
        continue;
      }
      var dt := Get(x.fields, "date");
      var tvl := Get(x.fields, "totalLiquidityUSD");
      if dt.Null? || tvl.Null? {
        continue;
      }
      var tvlF := ToFloat(tvl, p);
      if tvlF.None? {
        continue;
      }
      var dtI := ToInt(dt, p);
      if dtI.None? {
        continue;
      }
      rows := rows + [TvlPoint(dtI.value, tvlF.value, Source)];
    }
    assert data[..|data|] == data;
  }

  /** Sorting by time (line 59) keeps every row's source. */
  lemma SortedChartSourced(rows: seq<TvlPoint>, sorted: seq<TvlPoint>)
    requires multiset(sorted) == multiset(rows)
    requires forall k :: 0 <= k < |rows| ==> rows[k].source == Source
    ensures forall k :: 0 <= k < |sorted| ==> sorted[k].source == Source
  {
    AllSurvive(rows, sorted, (r: TvlPoint) => r.source == Source);
  }

  /** `fetch_total_defi_tvl_chart` after the HTTP call. */
  method NormaliseChart(payload: Option<Value>, p: Parsers) returns (t: Table<TvlPoint>)
    ensures t.columns == ChartColumns
    ensures ListItems(payload) == [] ==> t.rows == []
    ensures |t.rows| <= |ListItems(payload)|
    ensures Ordered(t.rows, PointTime, false)
    ensures multiset(t.rows) == multiset(ChartRows(payload, p))
    ensures forall k :: 0 <= k < |t.rows| ==> t.rows[k].source == Source
  {
    if payload.None? || !payload.value.List? {
      return Table(ChartColumns, []);
    }
    var rows := CollectChart(payload.value.items, p);
    if |rows| == 0 {
      return Table(ChartColumns, []);
    }
    var sorted := Sort(rows, PointTime, false);
    SortedChartSourced(rows, sorted);
    t := Table(ChartColumns, sorted);
  }

  // ---------------------------------------------------------------- GET /protocols

  /** What a protocol record must satisfy to become a row, and the row it becomes: a dict
      with a truthy `name` and `slug`; a TVL that does not parse is 0.0 and a percent change
      that does not parse is null, neither of which drops the row. */
  function ProtocolRecord(x: Value, fetchedAt: string, p: Parsers): Option<ProtocolRow> {
    if x.Dict? && Truthy(Get(x.fields, "name")) && Truthy(Get(x.fields, "slug")) then
      Some(ProtocolRow(
        Get(x.fields, "name"), Get(x.fields, "slug"), Get(x.fields, "category"),
        Get(x.fields, "chain"), NumberOrZero(Get(x.fields, "tvl"), p),
        ToFloat(Get(x.fields, "change_1d"), p), ToFloat(Get(x.fields, "change_7d"), p),
        ToFloat(Get(x.fields, "change_1m"), p), fetchedAt, Source))
    else None
  }

  function ProtocolRecordOf(fetchedAt: string, p: Parsers): Value -> Option<ProtocolRow> {
    x => ProtocolRecord(x, fetchedAt, p)
  }

  /** The valid rows of a protocols payload before sorting and truncation. */
  function ProtocolRows(payload: Option<Value>, fetchedAt: string, p: Parsers): seq<ProtocolRow> {
    FilterMap(ListItems(payload), ProtocolRecordOf(fetchedAt, p))
  }

  /** Every valid protocol row came from a dict record with a truthy name and slug, carries
      the batch's fetch timestamp and the source label, and has the record's TVL (0.0 when it
      does not parse) and percent changes (null when they do not parse). */
  lemma ProtocolRowsOrigin(payload: Option<Value>, fetchedAt: string, p: Parsers, r: ProtocolRow)
    requires r in ProtocolRows(payload, fetchedAt, p)
    ensures exists x :: x in ListItems(payload) && x.Dict? && ProtocolRecord(x, fetchedAt, p) == Some(r)
    ensures Truthy(r.name) && Truthy(r.slug)
    ensures r.tsUtc == fetchedAt && r.source == Source
  {
    FilterMapMember(ListItems(payload), ProtocolRecordOf(fetchedAt, p), r);
    var i :| 0 <= i < |ListItems(payload)| && ProtocolRecord(ListItems(payload)[i], fetchedAt, p) == Some(r);
  }

  /** The loop of `fetch_protocols_snapshot` (lines 77-98): visit the records in order, skip
      the ones that fail, append a row for each of the others. */
  method CollectProtocols(data: seq<Value>, fetchedAt: string, p: Parsers)
    returns (rows: seq<ProtocolRow>)
    ensures rows == FilterMap(data, ProtocolRecordOf(fetchedAt, p))
    ensures forall k :: 0 <= k < |rows| ==>
      Truthy(rows[k].name) && Truthy(rows[k].slug) && rows[k].tsUtc == fetchedAt && rows[k].source == Source
  {
    rows := [];
    for i := 0 to |data|
      invariant rows == FilterMap(data[..i], ProtocolRecordOf(fetchedAt, p))
      invariant forall k :: 0 <= k < |rows| ==>
        Truthy(rows[k].name) && Truthy(rows[k].slug) && rows[k].tsUtc == fetchedAt && rows[k].source == Source
    {
      var x := data[i];
      FilterMapSnoc(data[..i], x, ProtocolRecordOf(fetchedAt, p));
      assert data[..i + 1] == data[..i] + [x];
      assert ProtocolRecordOf(fetchedAt, p)(x) == ProtocolRecord(x, fetchedAt, p);
      if !x.Dict? {
        continue;
      }
      var name := Get(x.fields, "name");
      var slug := Get(x.fields, "slug");
      if !Truthy(name) || !Truthy(slug) {
        continue;
      }
      rows := rows + [ProtocolRow(
        name, slug, Get(x.fields, "category"), Get(x.fields, "chain"),
        NumberOrZero(Get(x.fields, "tvl"), p),
        ToFloat(Get(x.fields, "change_1d"), p), ToFloat(Get(x.fields, "change_7d"), p),
        ToFloat(Get(x.fields, "change_1m"), p), fetchedAt, Source)];
    }
    assert data[..|data|] == data;
  }

  /** What the finishing steps of `fetch_protocols_snapshot` (lines 100-106) make of the
      valid rows: the highest-TVL rows, highest first, as many as `head(top_n)` keeps. */
  lemma TopProtocols(valid: seq<ProtocolRow>, topN: int, fetchedAt: string)
    requires forall k :: 0 <= k < |valid| ==>
      Truthy(valid[k].name) && Truthy(valid[k].slug) && valid[k].tsUtc == fetchedAt && valid[k].source == Source
    ensures var rows := Top(valid, ProtocolTvl, topN);
      forall k :: 0 <= k < |rows| ==>
        Truthy(rows[k].name) && Truthy(rows[k].slug) && rows[k].tsUtc == fetchedAt && rows[k].source == Source
  {
    AllSurvive(valid, Top(valid, ProtocolTvl, topN), (r: ProtocolRow) =>
      Truthy(r.name) && Truthy(r.slug) && r.tsUtc == fetchedAt && r.source == Source);
  }

  /** `fetch_protocols_snapshot(top_n)` after the HTTP call: the top `top_n` valid rows by
      TVL (highest first, none left out above a kept one, as `Top` promises), each carrying
      the batch timestamp. */
  method NormaliseProtocols(payload: Option<Value>, topN: int, fetchedAt: string, p: Parsers)
    returns (t: Table<ProtocolRow>)
    ensures t.columns == ProtocolColumns
    ensures ListItems(payload) == [] ==> t.rows == []
    ensures t.rows == Top(ProtocolRows(payload, fetchedAt, p), ProtocolTvl, topN)
    ensures Ordered(t.rows, ProtocolTvl, true)
    ensures forall k :: 0 <= k < |t.rows| ==>
      Truthy(t.rows[k].name) && Truthy(t.rows[k].slug)
      && t.rows[k].tsUtc == fetchedAt && t.rows[k].source == Source
  {
    if payload.None? || !payload.value.List? {
      return Table(ProtocolColumns, []);
    }
    var rows := CollectProtocols(payload.value.items, fetchedAt, p);
    if |rows| == 0 {
      return Table(ProtocolColumns, []);
    }
    // Re-coercing tvl_usd with to_numeric/fillna (line 104) leaves every row as it is: each
    // row's TVL is already a number.
    TopProtocols(rows, topN, fetchedAt);
    t := Table(ProtocolColumns, Top(rows, ProtocolTvl, topN));
  }

  // ---------------------------------------------------------------- GET /categories

  /** A dict item of the categories payload: its category is `name or category`, which must
      be truthy; a TVL that does not parse is 0.0. */
  function CategoryDictItem(item: Value, fetchedAt: string, p: Parsers): Option<CategoryRow> {
    if item.Dict? && Truthy(Or(Get(item.fields, "name"), Get(item.fields, "category"))) then
      Some(CategoryRow(Str(StrOf(Or(Get(item.fields, "name"), Get(item.fields, "category")), p)),
                       NumberOrZero(Get(item.fields, "tvl"), p), fetchedAt, Source))
    else None
  }

  /** An item of a top-level list: a dict as above, or a bare category name with TVL 0.0. */
  function CategoryListItem(item: Value, fetchedAt: string, p: Parsers): Option<CategoryRow> {
    if item.Str? then Some(CategoryRow(item, 0.0, fetchedAt, Source))
    else CategoryDictItem(item, fetchedAt, p)
  }

  function CategoryDictItemOf(fetchedAt: string, p: Parsers): Value -> Option<CategoryRow> {
    x => CategoryDictItem(x, fetchedAt, p)
  }

  function CategoryListItemOf(fetchedAt: string, p: Parsers): Value -> Option<CategoryRow> {
    x => CategoryListItem(x, fetchedAt, p)
  }

  /** `data.get("categories") or data.get("data") or data.get("items") or []`, when that is
      a list: the first truthy value among the three keys decides, and when it is not a list
      nothing is read, even if a later key holds one. */
  function WrappedItems(d: map<string, Value>): (r: Option<seq<Value>>)
    ensures Truthy(Get(d, "categories")) ==>
      r == (if Get(d, "categories").List? then Some(Get(d, "categories").items) else None)
    ensures !Truthy(Get(d, "categories")) && Truthy(Get(d, "data")) ==>
      r == (if Get(d, "data").List? then Some(Get(d, "data").items) else None)
    ensures !Truthy(Get(d, "categories")) && !Truthy(Get(d, "data")) && Truthy(Get(d, "items")) ==>
      r == (if Get(d, "items").List? then Some(Get(d, "items").items) else None)
    ensures !Truthy(Get(d, "categories")) && !Truthy(Get(d, "data")) && !Truthy(Get(d, "items")) ==>
      r == Some([])
  {
    var maybe := Or(Or(Or(Get(d, "categories"), Get(d, "data")), Get(d, "items")), List([]));
    if maybe.List? then Some(maybe.items) else None
  }

  /** The rows of a categories payload before sorting, in payload order, by shape. */
  function CategoryRows(payload: Option<Value>, fetchedAt: string, p: Parsers): seq<CategoryRow> {
    match payload
    case None => []
    case Some(List(items)) => FilterMap(items, CategoryListItemOf(fetchedAt, p))
    case Some(Dict(d)) =>
      if WrappedItems(d).Some? then FilterMap(WrappedItems(d).value, CategoryDictItemOf(fetchedAt, p))
      else []
    case Some(_) => []
  }

  /** In a top-level list, a bare string is a category with TVL 0.0. */
  lemma BareNameIsCategory(items: seq<Value>, k: nat, fetchedAt: string, p: Parsers)
    requires k < |items| && items[k].Str?
    ensures CategoryRow(items[k], 0.0, fetchedAt, Source) in CategoryRows(Some(List(items)), fetchedAt, p)
  {
    FilterMapMember(items, CategoryListItemOf(fetchedAt, p), CategoryRow(items[k], 0.0, fetchedAt, Source));
  }

  /** Inside a dict-wrapped payload only dict items count: every row comes from a dict item
      of the wrapped list, and a bare string there contributes nothing. */
  lemma WrappedRowsFromDicts(d: map<string, Value>, fetchedAt: string, p: Parsers, r: CategoryRow)
    requires r in CategoryRows(Some(Dict(d)), fetchedAt, p)
    ensures WrappedItems(d).Some?
    ensures exists x :: x in WrappedItems(d).value && x.Dict? && CategoryDictItem(x, fetchedAt, p) == Some(r)
  {
    var items := WrappedItems(d).value;
    FilterMapMember(items, CategoryDictItemOf(fetchedAt, p), r);
    var i :| 0 <= i < |items| && CategoryDictItem(items[i], fetchedAt, p) == Some(r);
  }

  /** Every category row, whatever the payload's shape, has a string category, the batch's
      fetch timestamp and the source label. */
  lemma CategoryRowsStamped(payload: Option<Value>, fetchedAt: string, p: Parsers, r: CategoryRow)
    requires r in CategoryRows(payload, fetchedAt, p)
    ensures r.category.Str? && r.tsUtc == fetchedAt && r.source == Source
  {
    match payload {
      case Some(List(items)) =>
        FilterMapMember(items, CategoryListItemOf(fetchedAt, p), r);
        var i :| 0 <= i < |items| && CategoryListItem(items[i], fetchedAt, p) == Some(r);
      case Some(Dict(d)) =>
        WrappedRowsFromDicts(d, fetchedAt, p, r);
      case _ =>
    }
  }

  /** A category row as every branch of `fetch_categories_snapshot` stamps it. */
  predicate CategoryStamped(r: CategoryRow, fetchedAt: string) {
    r.category.Str? && r.tsUtc == fetchedAt && r.source == Source
  }

  /** The loop over a top-level list (lines 122-135): dict items by `name or category`,
      bare strings with TVL 0.0, anything else skipped. */
  method CollectListCategories(items: seq<Value>, fetchedAt: string, p: Parsers)
    returns (rows: seq<CategoryRow>)
    ensures rows == FilterMap(items, CategoryListItemOf(fetchedAt, p))
    ensures forall k :: 0 <= k < |rows| ==> CategoryStamped(rows[k], fetchedAt)
  {
    rows := [];
    for i := 0 to |items|
      invariant rows == FilterMap(items[..i], CategoryListItemOf(fetchedAt, p))
      invariant forall k :: 0 <= k < |rows| ==> CategoryStamped(rows[k], fetchedAt)
    {
      var item := items[i];
      FilterMapSnoc(items[..i], item, CategoryListItemOf(fetchedAt, p));
      assert items[..i + 1] == items[..i] + [item];
      if item.Dict? {
        var row := CategoryDictItem(item, fetchedAt, p);
        if row.Some? {
          rows := rows + [row.value];
        }
      } else if item.Str? {
        rows := rows + [CategoryRow(item, 0.0, fetchedAt, Source)];
      }
    }
    assert items[..|items|] == items;
  }

  /** The loop over the list a dict payload wraps (lines 137-146): dict items only. */
  method CollectWrappedCategories(items: seq<Value>, fetchedAt: string, p: Parsers)
    returns (rows: seq<CategoryRow>)
    ensures rows == FilterMap(items, CategoryDictItemOf(fetchedAt, p))
    ensures forall k :: 0 <= k < |rows| ==> CategoryStamped(rows[k], fetchedAt)
  {
    rows := [];
    for i := 0 to |items|
      invariant rows == FilterMap(items[..i], CategoryDictItemOf(fetchedAt, p))
      invariant forall k :: 0 <= k < |rows| ==> CategoryStamped(rows[k], fetchedAt)
    {
      var item := items[i];
      FilterMapSnoc(items[..i], item, CategoryDictItemOf(fetchedAt, p));
      assert items[..i + 1] == items[..i] + [item];
      var row := CategoryDictItem(item, fetchedAt, p);
      if row.Some? {
        rows := rows + [row.value];
      }
    }
    assert items[..|items|] == items;
  }

  /** Sorting by TVL (line 152) keeps every row's stamp. */
  lemma SortedCategoriesStamped(rows: seq<CategoryRow>, sorted: seq<CategoryRow>, fetchedAt: string)
    requires multiset(sorted) == multiset(rows)
    requires forall k :: 0 <= k < |rows| ==> CategoryStamped(rows[k], fetchedAt)
    ensures forall k :: 0 <= k < |sorted| ==> CategoryStamped(sorted[k], fetchedAt)
  {
    AllSurvive(rows, sorted, (r: CategoryRow) => CategoryStamped(r, fetchedAt));
  }

  /** `fetch_categories_snapshot` after the HTTP call. */
  method NormaliseCategories(payload: Option<Value>, fetchedAt: string, p: Parsers)
    returns (t: Table<CategoryRow>)
    ensures t.columns == CategoryColumns
    ensures payload.None? ==> t.rows == []
    ensures Ordered(t.rows, CategoryTvl, true)
    ensures multiset(t.rows) == multiset(CategoryRows(payload, fetchedAt, p))
    ensures forall k :: 0 <= k < |t.rows| ==> CategoryStamped(t.rows[k], fetchedAt)
  {
    if payload.None? {
      return Table(CategoryColumns, []);
    }
    var data := payload.value;
    var rows: seq<CategoryRow> := [];
    if data.List? {
      rows := CollectListCategories(data.items, fetchedAt, p);
    } else if data.Dict? {
      var wrapped := WrappedItems(data.fields);
      if wrapped.Some? {
        rows := CollectWrappedCategories(wrapped.value, fetchedAt, p);
      }
    }
    assert rows == CategoryRows(payload, fetchedAt, p);
    if |rows| == 0 {
      return Table(CategoryColumns, []);
    }
    var sorted := Sort(rows, CategoryTvl, true);
    SortedCategoriesStamped(rows, sorted, fetchedAt);
    t := Table(CategoryColumns, sorted);
  }
}
