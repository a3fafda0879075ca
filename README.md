# WITIN DeFi dashboards: a Dafny model of the ingest, ETL, marts and dashboard logic

This project models the data path of the WITIN dashboards in Dafny and proves properties of
it:

- the three DefiLlama payload normalisers (`fetch_total_defi_tvl_chart`,
  `fetch_protocols_snapshot`, `fetch_categories_snapshot`) and the `_to_float` coercion
  they share;
- the ETL run (`pipelines/run_etl.py`, `main`): the empty-table replacements, the category
  aggregate derived from the protocol snapshot, and its preference over the categories
  endpoint;
- the mart builders (`build_dim_prices`, `build_fact_protocol_snapshot`,
  `build_fact_risk_placeholder`);
- the macro dashboards page (`pages/1_Dashboards.py`): `_pct_change`, `_pick_ts_column`, the
  column fallbacks, the TVL trend, and the category and protocol panels;
- the landing page and the Aave dashboard page (`app/Home.py`, `app/pages/1_Dashboards.py`):
  `safe_last_refresh`, the Aave TVL metric, the ETH price metric and the price-chart guard.

Files, one module each:

- `values.dfy` (`Values`): Python values (`None`, bool, number, str, timestamp, list, dict),
  truthiness, `dict.get`, `or`, and the coercions `float()`, `int()`, `pd.to_numeric` and
  `pd.to_datetime`. Parsing text is left abstract. A `Parsers` record of functions is passed
  in, so every property holds whatever the parser accepts.
- `seqs.dfy` (`Seqs`): filter-and-map over a sequence (the shape of every append loop), sums,
  and distinct keys.
- `sorting.dfy` (`Sorting`): `sort_values` as a sort by a key (ascending or descending),
  `head(n)`, and the top-n selection.
- `ingest.dfy` (`Ingest`): the three normalisers as methods with the source's loops.
- `etl.dfy` (`Etl`): group-by-sum, the derived aggregate, and `RunEtl`.
- `frames.dfy` (`Frames`): a DataFrame as a list of column names plus one map per row.
- `marts.dfy` (`Marts`): the three builders as functions, each returning its frame or the
  exception that escapes.
- `dashboards.dfy` (`Dashboards`): the macro dashboards page.
- `home.dfy` (`Home`): the landing page.
- `app_dashboards.dfy` (`AppDashboards`): the Aave dashboard page.

Conventions:

- A script that writes frame columns in place is modelled as a method that reassigns a frame
  value. A Streamlit section becomes the data it would draw, or the reason it called
  `st.stop()`.
- A null cell (`Null`) stands for Python's `None` and for pandas' NaN/NaT.
- Timestamps are whole seconds since the epoch. TVL and prices are reals.

## Model

| member | source | states |
|---|---|---|
| Values.ToFloat | pipelines/ingest/defillama_market.py:21-25 | `_to_float` never fails. None for None and for values `float()` rejects (timestamps, lists, dicts). The number itself for a number, 1.0/0.0 for a bool, the parser's answer for a str. |
| Values.NumberOrZero | pipelines/ingest/defillama_market.py:92 | `_to_float(v) or 0.0`: 0.0 when the conversion fails, otherwise the converted value. |
| Values.ToInt | pipelines/ingest/defillama_market.py:48-51 | `int(v)`: a number truncated toward zero, a bool as 1/0, the parser's answer for a str, failure for anything else. |
| Values.Truncate | pipelines/ingest/defillama_market.py:49 | `int()` on a float truncates toward zero: the result lies within one of x, on the side of zero. |
| Values.Or | pipelines/ingest/defillama_market.py:127 | Python `a or b`: truthy exactly when either operand is; the first operand when it is truthy, else the second. |
| Values.StrLessTransitive | pipelines/transform/marts.py:20 | Python's order on str, which `max()` on a str column uses, is transitive. |
| Values.StrLessTotal | pipelines/transform/marts.py:20 | Any two distinct str are ordered one way or the other. |
| Sorting.Sort | pipelines/ingest/defillama_market.py:59 | `sort_values`: the result is ordered by the key and is a permutation of the input. |
| Sorting.Head | pages/1_Dashboards.py:160 | `head(n)`: a prefix, of length min(n, len) for n ≥ 0 and max(0, len + n) for negative n. |
| Sorting.PrefixIsTop | pages/1_Dashboards.py:133 | A prefix of a descending order is itself in order and is a sub-multiset of it. No row past the prefix has a higher key than a row in it. |
| Sorting.TopRows | pipelines/ingest/defillama_market.py:105 | A descending sort then `head(n)` keeps a sub-multiset of the input, highest first, and no row left out has a higher key than a row kept. |
| Sorting.Top | pipelines/ingest/defillama_market.py:105 | The top-n selection: its length, order, sub-multiset and top-n properties. |
| Ingest.ChartRecord | pipelines/ingest/defillama_market.py:39-54 | A chart record gives a row exactly when it is a dict whose `totalLiquidityUSD` converts with `_to_float` and whose `date` converts with `int()`; a missing key reads as None, which neither accepts. The row holds those two values and source "defillama". |
| Ingest.CollectChart | pipelines/ingest/defillama_market.py:37-54 | The loop keeps exactly the valid chart records, in payload order, and each row's source is "defillama". |
| Ingest.SortedChartSourced | pipelines/ingest/defillama_market.py:59 | Sorting the chart rows by time keeps every row's source. |
| Ingest.ProtocolRecord | pipelines/ingest/defillama_market.py:79-98 | A protocol record gives a row exactly when it is a dict with a truthy `name` and `slug`. The row copies name, slug, category and chain, takes `_to_float(tvl) or 0.0` and the three converted changes (None when they fail), and carries the batch timestamp and source. |
| Ingest.NormaliseChart | pipelines/ingest/defillama_market.py:28-59 | A missing or non-list payload gives the empty table. Otherwise the result has the columns `ts_utc, tvl_usd, source`, is sorted ascending by time, is a permutation of the valid records, has at most as many rows as the payload, and every row's source is "defillama". |
| Ingest.ProtocolRowsOrigin | pipelines/ingest/defillama_market.py:78-98 | Every valid protocol row comes from a dict record with a truthy name and slug, and carries the batch timestamp and source "defillama". |
| Ingest.CollectProtocols | pipelines/ingest/defillama_market.py:77-98 | The loop keeps exactly the valid records, in payload order. Each row carries the batch timestamp and the source. |
| Ingest.TopProtocols | pipelines/ingest/defillama_market.py:104-105 | The top `top_n` rows keep the batch timestamp and the source. |
| Ingest.NormaliseProtocols | pipelines/ingest/defillama_market.py:62-106 | The fixed ten columns. No rows for a missing or non-list payload. Otherwise the rows are the top-`top_n` selection of the valid rows: the min(top_n, #valid) highest-TVL rows, highest first, none left out above a kept one. Each row has a truthy name and slug and carries the batch timestamp and source. |
| Ingest.WrappedItems | pipelines/ingest/defillama_market.py:137-138 | For a dict payload the items come from the first truthy of `categories`, `data` and `items`, and count only when that value is a list. |
| Ingest.CategoryDictItem | pipelines/ingest/defillama_market.py:126-131 | A dict item gives a row exactly when `name or category` is truthy. Its category is `str()` of that value and its TVL is `_to_float(tvl) or 0.0`, with the batch timestamp and source. Lines 140-146 apply the same rule. |
| Ingest.CategoryListItem | pipelines/ingest/defillama_market.py:126-134 | An item of a top-level list: a str is a category with TVL 0.0, and anything else is read as a dict item. |
| Ingest.BareNameIsCategory | pipelines/ingest/defillama_market.py:132-134 | A bare string in a top-level list becomes a category row with TVL 0.0. |
| Ingest.WrappedRowsFromDicts | pipelines/ingest/defillama_market.py:136-146 | Inside a dict payload, every row comes from a dict item of the wrapped list, so string items are skipped. |
| Ingest.CategoryRowsStamped | pipelines/ingest/defillama_market.py:117-146 | Whatever the payload's shape, every category row has a str category, the batch timestamp and source "defillama". |
| Ingest.CollectListCategories | pipelines/ingest/defillama_market.py:124-134 | The top-list loop keeps exactly the valid items in order, each stamped. |
| Ingest.CollectWrappedCategories | pipelines/ingest/defillama_market.py:137-146 | The wrapped-list loop keeps exactly the valid dict items in order, each stamped. |
| Ingest.SortedCategoriesStamped | pipelines/ingest/defillama_market.py:152-153 | Sorting keeps every row's stamp. |
| Ingest.NormaliseCategories | pipelines/ingest/defillama_market.py:109-153 | The columns `category, tvl_usd, ts_utc, source`. No rows for a missing payload. Otherwise a permutation of the valid rows for the payload's shape, sorted descending by TVL, every row stamped. |
| Etl.IndexOf | pipelines/run_etl.py:53-55 | The group of a category, if any: its position holds that category, and -1 means none does. |
| Etl.CategoryLabel | pipelines/run_etl.py:51 | `fillna("Unknown")`: a null category is "Unknown", and any other value is kept. |
| Etl.Groups | pipelines/run_etl.py:53-59 | `groupby(...).sum()`, with the refresh time and the aggregate source on each group, built one protocol row at a time. Its properties are stated by `Etl.GroupsSpec`. |
| Etl.SumForAbsent | pipelines/run_etl.py:53-55 | A category no protocol row carries sums to 0.0. |
| Etl.AddToKeys | pipelines/run_etl.py:53-55 | Adding a row's TVL into the groups keeps one group per category, covers the row's category, and raises the total by the row's TVL. |
| Etl.AddToSummed | pipelines/run_etl.py:53-55 | After adding a row, each group's TVL is the sum of its category's TVL over the rows seen so far. |
| Etl.GroupsSpec | pipelines/run_etl.py:51-59 | The grouping has one group per distinct category label (null read as "Unknown") and no other. Each group's TVL is its category's sum, each carries the refresh time and the aggregate source, and the total TVL is preserved. |
| Etl.AggregateSpec | pipelines/run_etl.py:50-59 | The derived table has the grouping's properties and is sorted descending by TVL. |
| Etl.Aggregate | pipelines/run_etl.py:50-59 | The groups sorted by TVL, highest first. Its properties are stated by `Etl.AggregateSpec`. |
| Etl.UseDerived | pipelines/run_etl.py:49 | The guard of line 49: the protocol table is non-empty and has `category` and `tvl_usd` columns. |
| Etl.CategoriesPermutation | pipelines/run_etl.py:56-57 | Reordering the groups does not change which categories have a group. |
| Etl.SummedPermutation | pipelines/run_etl.py:56-59 | Reordering the groups keeps every group's sum and stamp. |
| Etl.LoadChart | pipelines/run_etl.py:33-35 | The TVL table has the chart columns, holds a permutation of the valid chart records, and is in time order. |
| Etl.LoadProtocols | pipelines/run_etl.py:37-43 | The protocol table has the ten protocol columns. Its rows are the top-20 selection of the valid records: the highest-TVL ones, highest first, none left out above a kept one. It has a row exactly when the payload has a valid record. |
| Etl.UseDerivedRows | pipelines/run_etl.py:49 | With the protocol columns, the derived aggregate is chosen exactly when the protocol table has a row. |
| Etl.RunEtl | pipelines/run_etl.py:29-68 | The TVL table is a permutation of the valid chart records, in time order. The protocol table is the top-20 selection of the valid protocol records. The aggregate is used when that table is non-empty and has `category` and `tvl_usd` (line 49). Since the table always has its ten columns, this holds exactly when the payload has a valid protocol record, and the aggregate is then built over those rows. Otherwise the categories table is used: a permutation of its valid rows, sorted by TVL, highest first. The metadata is one fixed row with the refresh time. |
| Etl.LendingGroups | pipelines/run_etl.py:53-59 | The worked example's three protocol rows group to Lending 150 and Unknown 10, one group per label. |
| Etl.LendingSorted | pipelines/run_etl.py:56 | Those two groups are already in descending TVL order. |
| Etl.LendingExample | pipelines/run_etl.py:49-59 | Lending 100 and 50 plus a null-category 10 aggregate to Lending 150 and Unknown 10, highest first. |
| Frames.Column | pages/1_Dashboards.py:119 | `df[c]`: one cell per row, null where the row has none. |
| Frames.SetColumn | pages/1_Dashboards.py:80 | `df[c] = cells`: an existing column keeps its place and a new one goes last. Each row gets its cell and nothing else changes. |
| Frames.Project | pipelines/transform/marts.py:17 | A row cut to the given columns. |
| Frames.Select | pipelines/transform/marts.py:7 | `df[cols]`: exactly those columns in that order, and every row cut to them. |
| Frames.Missing | pipelines/transform/marts.py:6 | The names of `cols` that are not columns, as reported in pandas' KeyError. |
| Frames.FirstPresent | pages/1_Dashboards.py:84 | `next(...)`: the first candidate that is a column, with none before it; None exactly when no candidate is a column. |
| Frames.FirstPresentSame | pages/1_Dashboards.py:80-84 | Adding a column that is not a candidate does not change the fallback chosen. |
| Marts.BuildDimPrices | pipelines/transform/marts.py:3-7 | A KeyError for a missing `price_usd`, then for a missing `asset_symbol` or `ts_utc`. Otherwise the columns `asset_symbol, price_usd, ts_utc`, at most as many rows as the input. The input frame is a value and is never changed. |
| Marts.PriceRow | pipelines/transform/marts.py:5-6 | One row after the coercion and `dropna`. It is dropped when its symbol or timestamp is null or its price does not convert. Otherwise it keeps those three cells, with the price as a number. |
| Marts.DimPricesClean | pipelines/transform/marts.py:5-7 | Every output row has a symbol, a numeric price and a timestamp, and comes from an input row with the same symbol and timestamp. |
| Marts.DimPricesKeep | pipelines/transform/marts.py:5-6 | Conversely, an input row with a symbol, a timestamp and a price that coerces appears in the output. |
| Marts.Present | pipelines/transform/marts.py:16 | The kept columns are exactly the candidates that are columns. |
| Marts.TvlCells | pipelines/transform/marts.py:12 | Each TVL cell is coerced to a number, 0.0 when it does not parse. |
| Marts.ProtocolCells | pipelines/transform/marts.py:13 | A null protocol becomes "Aave"; any other value is kept. |
| Marts.SnapshotKeep | pipelines/transform/marts.py:16 | Once `protocol`, `tvl_usd` and `ts_utc` exist, the kept columns follow the fixed snapshot order. |
| Marts.Written | pipelines/transform/marts.py:10-14 | The copy after the three column writes of lines 12-14, read as intended: a missing `tvl_usd` becomes 0.0, a missing `protocol` "Aave", and a missing `ts_utc` a null column. Its properties are stated by `Marts.WrittenSpec`. |
| Marts.WrittenSpec | pipelines/transform/marts.py:12-14 | The copy after the three writes has `protocol`, `tvl_usd` and `ts_utc` columns, and each row is its input row with the three cells written. |
| Marts.KeptCells | pipelines/transform/marts.py:16-17 | One written row, seen through the kept columns. |
| Marts.KeptRows | pipelines/transform/marts.py:16-17 | Every row of the written copy, seen through the kept columns. |
| Marts.BuildFactProtocolSnapshotAsWritten | pipelines/transform/marts.py:9-17 | Fails exactly when `tvl_usd` or `protocol` is not a column. Otherwise it equals the intended builder. |
| Marts.BuildFactProtocolSnapshot | pipelines/transform/marts.py:9-17 | Every row is kept. Columns are `protocol, tvl_usd, [category], ts_utc, [source]`. TVL is coerced with 0.0 for unparseable values, a null protocol is "Aave", and the timestamp, category and source are copied. |
| Marts.SnapshotWithoutTvlFails | pipelines/transform/marts.py:12 | Without a `tvl_usd` column the written builder raises, where the intended one gives 0.0. |
| Marts.SnapshotWithoutProtocolFails | pipelines/transform/marts.py:13 | Without a `protocol` column the written builder raises, where the intended one gives "Aave". |
| Marts.AtMostTransitive | pipelines/transform/marts.py:20 | Python's `<=` on comparable cells is transitive. |
| Marts.AtMostTotal | pipelines/transform/marts.py:20 | Any two comparable cells are ordered one way or the other. |
| Marts.MaxCell | pipelines/transform/marts.py:20 | `Series.max()` over the cells, skipping nulls: null for no non-null cell, a TypeError once two non-null cells do not compare, else the greatest. Its properties are stated by `Marts.MaxCellSpec`. |
| Marts.MaxCellSpec | pipelines/transform/marts.py:20 | `Series.max()` succeeds exactly when the non-null cells are mutually comparable. It is null exactly when every cell is null; otherwise it is one of the cells and no cell is greater. |
| Marts.BuildFactRiskPlaceholder | pipelines/transform/marts.py:19-25 | A KeyError without `ts_utc`, and the max's failure exactly when the timestamps are not comparable. Otherwise three rows in order, `ETH -10%`, `ETH -20%`, `ETH -30%`, each with estimate 0.0 and the latest timestamp. |
| Dashboards.Position | pages/1_Dashboards.py:35-36 | `iloc[i]` reads position i, or len + i for a negative i, and fails outside the series. |
| Dashboards.PctChange | pages/1_Dashboards.py:32-39 | Never fails for periods ≥ 0. Gives 0.0 without a series or with fewer than periods + 1 values. |
| Dashboards.PctChangeInverse | pages/1_Dashboards.py:35-39 | The change undoes itself: prev · (1 + x/100) is the last value. It is positive exactly when the last value exceeds the base by ratio. |
| Dashboards.PctChangeZeroBase | pages/1_Dashboards.py:37-38 | A zero base gives 0.0, never a division by zero. |
| Dashboards.Lower | pages/1_Dashboards.py:56 | Lower-casing keeps the length and lowers every letter A to Z. |
| Dashboards.FirstTimeLike | pages/1_Dashboards.py:57-60 | The first column, in column order, whose lowered name contains "ts", "time" or "date". None exactly when there is none. |
| Dashboards.PickTsColumn | pages/1_Dashboards.py:42-60 | The first fixed candidate that is a column, with none before it. Failing that, the first time-like column. Whatever it returns is a column. |
| Dashboards.ColumnFor | pages/1_Dashboards.py:82-90 | The preferred column when present, else the first fallback present. Whatever it returns is a column. |
| Dashboards.ConvertedTrend | pages/1_Dashboards.py:80-92 | After the two coercions, `dropna` keeps exactly the rows whose timestamp and value both parse, in row order. |
| Dashboards.WithTimes | pages/1_Dashboards.py:80 | `ts_utc` becomes the coerced timestamps of the chosen timestamp column, null where one does not parse. |
| Dashboards.WithNumbers | pages/1_Dashboards.py:88-90 | `tvl_usd` becomes the coerced values of the chosen TVL column, null where one does not parse. |
| Dashboards.TvlViewOf | pages/1_Dashboards.py:92-95 | The trend is the parseable points, ascending by time. The headline is the last point's value (0.0 without any), and no point is later than the last. The change is `_pct_change` over seven rows of the trend. |
| Dashboards.TrendLatest | pages/1_Dashboards.py:92-93 | In a trend sorted by time, no point is later than the last one. |
| Dashboards.TvlColumnIsNotTime | pages/1_Dashboards.py:82-86 | The TVL column chosen is never `ts_utc`. |
| Dashboards.TvlColumnAfterTimes | pages/1_Dashboards.py:80-86 | Writing `ts_utc` leaves the choice of TVL column unchanged, and that column is not `ts_utc`. |
| Dashboards.TvlSection | pages/1_Dashboards.py:70-95 | Stops for an empty frame, for a missing timestamp column, and for a missing TVL column. Otherwise it shows the view of the points whose timestamp and value both parse, read from the chosen columns. |
| Dashboards.CategoryPanelFrame | pages/1_Dashboards.py:116-132 | Each row's category is read from the chosen category column, and its TVL is that of the chosen TVL column, coerced with 0.0 for what does not parse. |
| Dashboards.CategoryTvlColumnAfter | pages/1_Dashboards.py:116-127 | Writing `category` leaves the choice of TVL column unchanged, and that column is not `category`. |
| Dashboards.WithCategory | pages/1_Dashboards.py:116-119 | When `category` is missing, it becomes a copy of the fallback column. |
| Dashboards.WithTvlFrom | pages/1_Dashboards.py:124-127 | When `tvl_usd` is missing, it becomes a copy of the fallback column, as on lines 144-147 too. |
| Dashboards.WithTvlNumbers | pages/1_Dashboards.py:132 | `tvl_usd` coerced to numbers, with 0.0 for what does not parse, as on line 152 too. |
| Dashboards.CategorySection | pages/1_Dashboards.py:113-136 | "Not available" exactly for an empty frame. Stops without a category column or a TVL column. Otherwise the 12 highest-TVL rows, highest first, none left out above a kept one. |
| Dashboards.ProtocolPanelFrame | pages/1_Dashboards.py:144-152 | TVL is that of the chosen column, coerced with 0.0; every other cell is unchanged. |
| Dashboards.FilledStep | pages/1_Dashboards.py:155-157 | Adding one null column keeps the filled-frame relation. |
| Dashboards.AddMissingColumns | pages/1_Dashboards.py:155-157 | Every missing display column is appended with a null in each row. Existing columns and cells are unchanged. |
| Dashboards.ShownProtocol | pages/1_Dashboards.py:160 | A displayed row has exactly the seven display columns, null where the frame lacked one. |
| Dashboards.ShownRow | pages/1_Dashboards.py:155-160 | Selecting the display columns from a filled row gives the displayed row. |
| Dashboards.ShownTop | pages/1_Dashboards.py:153-160 | Sort, fill, select and `head(20)` give the top 20 rows of the coerced frame, as displayed. |
| Dashboards.ProtocolSection | pages/1_Dashboards.py:140-163 | "Not available" exactly for an empty frame. Stops without a TVL column. Otherwise the 20 highest-TVL rows, highest first, each with the seven display columns. |
| Dashboards.TvlShown | pages/1_Dashboards.py:75-95 | What a drawn TVL section holds: the view of the points read from the chosen timestamp and TVL columns. |
| Dashboards.CategoriesShown | pages/1_Dashboards.py:116-136 | What a drawn category panel holds: the 12 highest-TVL rows of the coerced frame, highest first. |
| Dashboards.ProtocolsShown | pages/1_Dashboards.py:144-163 | What a drawn protocol panel holds: the 20 highest-TVL rows of the coerced frame, highest first, each cut to the seven display columns. |
| Dashboards.DashboardsPage | pages/1_Dashboards.py:63-163 | A stop in one section means no later section is drawn. An empty TVL mart stops the page at once, and each stop gives its section's reason. A panel says "not available" exactly when its frame is empty. A drawn section holds its content: the TVL view, the top 12 categories and the top 20 protocols, as stated by `TvlShown`, `CategoriesShown` and `ProtocolsShown`. |
| Home.MaxOf | app/Home.py:20-23 | `max()` on a non-empty list: a member that no member exceeds. |
| Home.Eligible | app/Home.py:15 | A frame is skipped when it is None, empty, or has no `ts_utc` column. |
| Home.Candidate | app/Home.py:15-20 | An eligible frame with a valid timestamp contributes its latest one. Any other frame contributes nothing. |
| Home.LastRefresh | app/Home.py:21-23 | "N/A" for no candidates, else the latest candidate. Its properties are stated by `Home.LastRefreshSpec`. |
| Home.CandidatesCover | app/Home.py:13-21 | The candidates are valid timestamps of eligible frames, and every such timestamp is bounded by a candidate. There are no candidates exactly when there are no such timestamps. |
| Home.LastRefreshSpec | app/Home.py:12-23 | "N/A" exactly when no eligible frame has a valid timestamp. Otherwise one of those timestamps, and none is later. |
| Home.LastRefreshSameTimes | app/Home.py:12-23 | The result depends only on the set of valid timestamps, not on the frames' order. |
| Home.CollectCandidates | app/Home.py:12-21 | The loop appends, in frame order, the latest valid timestamp of each eligible frame that has one. |
| Home.SafeLastRefresh | app/Home.py:12-23 | The latest valid timestamp over the eligible frames: one of them, and none is later. "N/A" exactly when there is none. |
| Home.AaveTvl | app/Home.py:41-45 | "N/A" exactly when `tvl_usd` is missing, the frame has no rows, or the first cell does not convert. Otherwise the first row's TVL. |
| Home.EthRows | app/Home.py:47 | The rows whose symbol is "ETH", in order; empty exactly when there is none. The first is the first ETH row of the frame. |
| Home.PriceOfFirst | app/Home.py:48-54 | For a frame that is non-empty and has `price_usd`: the first row's converted price. Otherwise, or when the conversion fails, "N/A". |
| Home.EthPriceAsWritten | app/Home.py:47-54 | Raises IndexingError exactly when a non-empty price frame lacks `asset_symbol`. |
| Home.EthPrice | app/Home.py:47-54 | The price of the first ETH row. "N/A" without an ETH row, without `price_usd`, or when that price does not convert; a value whenever the first ETH row's price converts. |
| Home.FirstIsFirst | app/Home.py:47-50 | The first ETH row is unique. |
| Home.EthPriceAgrees | app/Home.py:47-54 | Wherever line 47 does not raise, it agrees with the intended reading. |
| Home.EthPriceWithoutSymbolFails | app/Home.py:47 | One price row without `asset_symbol` raises as written, where the intended reading shows "N/A". |
| Home.HomePage | app/Home.py:25-68 | The page with line 47 as intended, using `Home.EthPrice`. Only the warning unless the three mart files exist, and it never raises. Otherwise the refresh over (prices, aave, risk), the Aave TVL, the ETH price and the number of risk scenarios. |
| Home.HomePageAsWritten | app/Home.py:25-68 | The page as written. It raises IndexingError exactly when the marts exist and a non-empty price frame lacks `asset_symbol`. It has then drawn only the refresh and the Aave TVL. Otherwise it is the page of `Home.HomePage`. |
| AppDashboards.Bars | app/pages/1_Dashboards.py:45 | One bar per price row, labelled by its symbol. |
| AppDashboards.DashboardsPage | app/pages/1_Dashboards.py:25-53 | Stops exactly when a mart file is missing. Otherwise the refresh over (prices, risk, aave). The price chart is drawn exactly when prices is non-empty and has `asset_symbol` and `price_usd`, and it is then one bar per row with that row's symbol and price. |
| AppDashboards.PagesAgreeOnRefresh | app/pages/1_Dashboards.py:36 | The two pages pass the frames in different orders and still report the same last refresh. |

## Left out

- Network I/O: `_get_json` and `requests.get`. Each normaliser takes the decoded payload, with None standing for a 404. A non-404 HTTP error aborts the fetch and is not modelled.
- File I/O: directory creation, the parquet writes, `print` output, `_read`/`read_parquet` and the `exists` checks. Each frame is a parameter, and so is whether the mart files exist. An unreadable file reads as an empty frame, as `_read` makes it.
- The wall clock: `_now_utc_iso` and `now_utc_iso` readings are parameters.
- All Streamlit rendering, `card` and `setup_page`. Each section returns the data it would draw.
- The static pages app/pages/2_Insights.py to 5_Contact.py; they contain no logic.
- Values.ToFloat: the grammar `float()`, `int()` and `pd.to_datetime` accept on text is abstract (the `Parsers` parameter). NaN and infinities are not modelled: a float is a real.
- Dashboards.Lower: lowers only A to Z, not the full Unicode case mapping of `str.lower()`.
- Dashboards.TvlSection: timestamps are whole seconds; the KPI number formatting and the chart are not modelled.
- Sorting.Sort: pandas' default sort is not stable. Every contract states only the order and the permutation, never the order among ties, and the model's own sort is one admissible order.
- Etl.GroupsSpec: categories are grouped by equality of values. Line 54 raises TypeError (unhashable type) for a list or dict category, and the model groups such a value instead. pandas' grouping of mixed types (say `1` and `1.0`) is not modelled, nor is the key order `groupby` produces before the sort.
- Ingest.NormaliseChart: `pd.to_datetime(dt_i, unit="s")` on line 53 lies outside the `try`. It raises OutOfBoundsDatetime for a `date` outside pandas' range of about ±9.2·10⁹ seconds (for instance a millisecond timestamp). That exception escapes the fetch and aborts the ETL run at pipelines/run_etl.py:33. The model keeps such a record as a row and always returns a table.
- Ingest.CollectChart: for the same reason, it keeps a record with an out-of-range `date`, where line 53 raises.
- Ingest.ChartRecord: a record whose `date` converts with `int()` but lies outside pandas' datetime range gives a row in the model, where line 53 raises OutOfBoundsDatetime (see `Ingest.NormaliseChart`).
- Etl.LoadChart: it returns a table for every chart payload. The OutOfBoundsDatetime of defillama_market.py:53 escapes at run_etl.py:33 and aborts the run, and the model does not capture that.
- Etl.Groups: a list or dict category is given a group of its own, where `groupby` at line 54 raises TypeError (unhashable type).
- Etl.AggregateSpec: the derived table is stated for every protocol table, including one with a list or dict category, where line 54 raises TypeError and the run aborts.
- Etl.Aggregate: the same gap as `Etl.AggregateSpec`: a list or dict category is aggregated, where line 54 raises.
- Etl.RunEtl: it returns tables for every payload. It does not model the two exceptions above that abort the run: an out-of-range chart `date` and a list or dict protocol category.
- Marts.MaxCellSpec: a bool cell is treated as unorderable, while Python orders bool against numbers. Two list cells are treated as unorderable too, while Python compares lists element by element; a column whose non-null cells are all lists gives TypeError in the model where `max()` returns the greatest list.
- Marts.MaxCell: the same two gaps as `Marts.MaxCellSpec`: bool cells and list cells never compare.
- Home.AaveTvl: a NaN cell reads as null and gives "N/A", where Python would render "nan".
- Home.HomePage: it uses the corrected ETH price (see Findings). The page as written, which raises at line 47, is `Home.HomePageAsWritten`.
- Home.SafeLastRefresh: returns the timestamp; its `isoformat()` rendering is not modelled.
- pandas dtype inference: a column holds `Value`s of any kind, and coercions are per cell.

## Findings

| source | as written | input that shows it | evidently intended | confidence | as-written member | corrected member |
|---|---|---|---|---|---|---|
| pipelines/transform/marts.py:12 | `pd.to_numeric(df.get("tvl_usd"))` on a frame without `tvl_usd` coerces `None` to a NaN scalar, which has no `.fillna`: AttributeError | one row `{protocol: "Aave V3", ts_utc: 0}`, no `tvl_usd` column | a TVL of 0.0 for every row | not executed | Marts.SnapshotWithoutTvlFails | Marts.BuildFactProtocolSnapshot |
| pipelines/transform/marts.py:13 | `df.get("protocol", "Aave").fillna("Aave")` on a frame without `protocol` calls `.fillna` on the str "Aave": AttributeError | one row `{tvl_usd: 1.0, ts_utc: 0}`, no `protocol` column | protocol "Aave" for every row | not executed | Marts.SnapshotWithoutProtocolFails | Marts.BuildFactProtocolSnapshot |
| app/Home.py:47 | on a non-empty price frame without `asset_symbol`, the mask is an empty boolean Series, which pandas refuses as an indexer (IndexingError), outside any `try` | one row `{price_usd: 3000.0}`, no `asset_symbol` column | the ETH price shows "N/A" | not executed | Home.EthPriceWithoutSymbolFails | Home.EthPrice |
