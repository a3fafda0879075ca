/** One ETL run (pipelines/run_etl.py, `main`): the three normalised tables, the empty-table
    fallbacks, the category aggregate derived from the protocol snapshot and preferred over
    the categories endpoint, and the run metadata row. Directory creation, the parquet
    writes, the console output and the wall clock are not modelled: the timestamps come in
    as parameters and the four tables are returned. */
module Etl {
  import opened Values
  import opened Seqs
  import opened Sorting
  import opened Ingest

  const AggSource: string := "defillama_protocols_agg"
  const TopProtocolCount: int := 20
  const Unknown: Value := Str("Unknown")

  const MetaColumns: seq<string> := ["ts_utc", "pipeline", "status", "notes"]
  const MetaNotes: string := "Total TVL + top protocols + categories (protocols-agg fallback)"

  /** The one row of `meta_refresh`. */
  datatype MetaRow = MetaRow(tsUtc: string, pipeline: string, status: string, notes: string)

  // ---------------------------------------------------------------- group by category

  /** `cats["category"].fillna("Unknown")`: the group a protocol row falls in. */
  function CategoryLabel(r: ProtocolRow): Value {
    if r.category.Null? then Unknown else r.category
  }

  function TvlIn(c: Value): ProtocolRow -> real {
    r => if CategoryLabel(r) == c then r.tvlUsd else 0.0
  }

  /** The summed TVL of the protocol rows labelled `c`. */
  function SumFor(rows: seq<ProtocolRow>, c: Value): real {
    Sum(rows, TvlIn(c))
  }

  function GroupCategory(r: CategoryRow): Value { r.category }

  /** The position of the group for `c`, or -1 when there is none yet. */
  function IndexOf(groups: seq<CategoryRow>, c: Value): (i: int)
    ensures -1 <= i < |groups|
    ensures i >= 0 ==> groups[i].category == c
    ensures i < 0 ==> forall k :: 0 <= k < |groups| ==> groups[k].category != c
  {
    if groups == [] then -1
    else if groups[|groups| - 1].category == c then |groups| - 1
    else IndexOf(groups[..|groups| - 1], c)
  }

  /** One protocol row's TVL added into the group of its category, which is opened when the
      category has not been seen. */
  function AddTo(groups: seq<CategoryRow>, c: Value, v: real, ts: string): seq<CategoryRow> {
    var i := IndexOf(groups, c);
    if i >= 0 then groups[i := groups[i].(tvlUsd := groups[i].tvlUsd + v)]
    else groups + [CategoryRow(c, v, ts, AggSource)]
  }

  /** `groupby("category", as_index=False)["tvl_usd"].sum()` (lines 53-55), with the
      `ts_utc` and `source` columns of lines 58-59 on every group. */
  function Groups(rows: seq<ProtocolRow>, ts: string): seq<CategoryRow> {
    if rows == [] then []
    else
      var last := rows[|rows| - 1];
      AddTo(Groups(rows[..|rows| - 1], ts), CategoryLabel(last), last.tvlUsd, ts)
  }

  /** A category no protocol row carries sums to nothing. */
  lemma {:induction false} SumForAbsent(rows: seq<ProtocolRow>, c: Value)
    requires forall k :: 0 <= k < |rows| ==> CategoryLabel(rows[k]) != c
    ensures SumFor(rows, c) == 0.0
  {
    if rows != [] {
      var init := rows[..|rows| - 1];
      assert forall k :: 0 <= k < |init| ==> init[k] == rows[k];
      SumForAbsent(init, c);
    }
  }

  /** The categories a group table has a row for. */
  function Categories(g: seq<CategoryRow>): set<Value> {
    set i | 0 <= i < |g| :: g[i].category
  }

  /** The category labels the protocol rows carry. */
  function Labels(rows: seq<ProtocolRow>): set<Value> {
    set k | 0 <= k < |rows| :: CategoryLabel(rows[k])
  }

  /** Every group's TVL is the summed TVL of its category, and every group is stamped. */
  predicate Summed(g: seq<CategoryRow>, rows: seq<ProtocolRow>, ts: string) {
    forall i :: 0 <= i < |g| ==>
      g[i].tvlUsd == SumFor(rows, g[i].category) && g[i].tsUtc == ts && g[i].source == AggSource
  }

  /** What the group table of a run promises: one group per label and no other, the
      groups' TVLs are the per-label sums, every group is stamped, and no TVL is lost or
      counted twice. */
  predicate GroupTable(g: seq<CategoryRow>, rows: seq<ProtocolRow>, ts: string) {
    && DistinctKeys(g, GroupCategory)
    && Categories(g) == Labels(rows)
    && Summed(g, rows, ts)
    && Sum(g, CategoryTvl) == Sum(rows, ProtocolTvl)
  }

  lemma LabelsStep(rows: seq<ProtocolRow>)
    requires rows != []
    ensures Labels(rows) == Labels(rows[..|rows| - 1]) + {CategoryLabel(rows[|rows| - 1])}
  {
    var init := rows[..|rows| - 1];
    assert forall k :: 0 <= k < |init| ==> init[k] == rows[k];
  }

  lemma SumForStep(rows: seq<ProtocolRow>, d: Value)
    requires rows != []
    ensures SumFor(rows, d) == SumFor(rows[..|rows| - 1], d)
      + (if CategoryLabel(rows[|rows| - 1]) == d then rows[|rows| - 1].tvlUsd else 0.0)
  {
  }

  /** Adding into a group keeps one group per category and covers the new category. */
  lemma AddToKeys(g: seq<CategoryRow>, c: Value, v: real, ts: string)
    requires DistinctKeys(g, GroupCategory)
    ensures DistinctKeys(AddTo(g, c, v, ts), GroupCategory)
    ensures Categories(AddTo(g, c, v, ts)) == Categories(g) + {c}
    ensures Sum(AddTo(g, c, v, ts), CategoryTvl) == Sum(g, CategoryTvl) + v
  {
    var i := IndexOf(g, c);
    var g' := AddTo(g, c, v, ts);
    if i >= 0 {
      SumUpdate(g, i, g'[i], CategoryTvl);
      assert forall k :: 0 <= k < |g| ==> g'[k].category == g[k].category;
      assert g[i].category == c;
    } else {
      assert g'[..|g|] == g;
      assert forall k :: 0 <= k < |g| ==> g'[k] == g[k];
      assert g'[|g|].category == c;
    }
  }

  /** The step of `Groups`: the row's TVL lands in its category's group and nowhere else. */
  lemma AddToSummed(g: seq<CategoryRow>, rows: seq<ProtocolRow>, ts: string)
    requires rows != []
    requires DistinctKeys(g, GroupCategory)
    requires Categories(g) == Labels(rows[..|rows| - 1])
    requires Summed(g, rows[..|rows| - 1], ts)
    ensures Summed(AddTo(g, CategoryLabel(rows[|rows| - 1]), rows[|rows| - 1].tvlUsd, ts), rows, ts)
  {
    var init, last := rows[..|rows| - 1], rows[|rows| - 1];
    var c, v := CategoryLabel(last), last.tvlUsd;
    var i := IndexOf(g, c);
    var g' := AddTo(g, c, v, ts);
    forall k | 0 <= k < |g'|
      ensures g'[k].tvlUsd == SumFor(rows, g'[k].category)
    {
      SumForStep(rows, g'[k].category);
      if i < 0 && k == |g| {
        assert c !in Categories(g);
        assert forall m :: 0 <= m < |init| ==> CategoryLabel(init[m]) in Labels(init);
        SumForAbsent(init, c);
      } else {
        assert g[k] in g;
      }
    }
  }

  lemma {:induction false} GroupsSpec(rows: seq<ProtocolRow>, ts: string)
    ensures GroupTable(Groups(rows, ts), rows, ts)
  {
    if rows != [] {
      var init, last := rows[..|rows| - 1], rows[|rows| - 1];
      GroupsSpec(init, ts);
      var g := Groups(init, ts);
      AddToKeys(g, CategoryLabel(last), last.tvlUsd, ts);
      AddToSummed(g, rows, ts);
      LabelsStep(rows);
    }
  }

  /** The derived category table of lines 50-59: the groups, highest TVL first. */
  function Aggregate(rows: seq<ProtocolRow>, ts: string): seq<CategoryRow> {
    Sort(Groups(rows, ts), CategoryTvl, true)
  }

  /** Two group tables that are permutations of each other cover the same categories. */
  lemma CategoriesPermutation(a: seq<CategoryRow>, g: seq<CategoryRow>)
    requires multiset(a) == multiset(g)
    ensures Categories(a) == Categories(g)
  {
    forall c ensures c in Categories(a) <==> c in Categories(g) {
      if c in Categories(a) {
        var i :| 0 <= i < |a| && a[i].category == c;
        assert a[i] in multiset(g);
        var j :| 0 <= j < |g| && g[j] == a[i];
      }
      if c in Categories(g) {
        var i :| 0 <= i < |g| && g[i].category == c;
        assert g[i] in multiset(a);
        var j :| 0 <= j < |a| && a[j] == g[i];
      }
    }
  }

  /** A permutation of a group table keeps every group's sum and stamp. */
  lemma SummedPermutation(a: seq<CategoryRow>, g: seq<CategoryRow>, rows: seq<ProtocolRow>, ts: string)
    requires multiset(a) == multiset(g)
    requires Summed(g, rows, ts)
    ensures Summed(a, rows, ts)
  {
    AllSurvive(g, a, (r: CategoryRow) =>
      r.tvlUsd == SumFor(rows, r.category) && r.tsUtc == ts && r.source == AggSource);
  }

  /** The derived aggregate has one row per distinct category label (a null category
      counting as "Unknown"), that row's TVL is the summed TVL of the category's protocols,
      the total TVL equals the protocols' total, the rows are sorted highest first, and every
      row carries the refresh timestamp and the aggregate's source label. */
  lemma AggregateSpec(rows: seq<ProtocolRow>, ts: string)
    ensures Ordered(Aggregate(rows, ts), CategoryTvl, true)
    ensures GroupTable(Aggregate(rows, ts), rows, ts)
  {
    var g := Groups(rows, ts);
    var a := Aggregate(rows, ts);
    GroupsSpec(rows, ts);
    DistinctSurvive(g, a, GroupCategory);
    SummedPermutation(a, g, rows, ts);
    SumPermutation(a, g, CategoryTvl);
    CategoriesPermutation(a, g);
  }

  // ---------------------------------------------------------------- the run

  /** Line 49: the derived aggregate is used when the protocol table is non-empty and has
      both a `category` and a `tvl_usd` column. */
  predicate UseDerived(prot: Table<ProtocolRow>) {
    !prot.Empty() && "category" in prot.columns && "tvl_usd" in prot.columns
  }

  /** Lines 33-35: the chart table, an empty frame standing in for an empty result. */
  method LoadChart(chart: Option<Value>, p: Parsers) returns (tvl: Table<TvlPoint>)
    ensures tvl.columns == ChartColumns
    ensures multiset(tvl.rows) == multiset(ChartRows(chart, p)) && Ordered(tvl.rows, PointTime, false)
  {
    tvl := NormaliseChart(chart, p);
    if tvl.Empty() {
      tvl := Table(ChartColumns, []);
    }
  }

  /** Lines 37-43: the top protocols, an empty frame standing in for an empty result. */
  method LoadProtocols(protocols: Option<Value>, protocolsAt: string, p: Parsers)
    returns (prot: Table<ProtocolRow>)
    ensures prot.columns == ProtocolColumns && |prot.rows| <= TopProtocolCount
    ensures multiset(prot.rows) <= multiset(ProtocolRows(protocols, protocolsAt, p))
    ensures prot.rows == Top(ProtocolRows(protocols, protocolsAt, p), ProtocolTvl, TopProtocolCount)
    ensures |prot.rows| > 0 <==> |ProtocolRows(protocols, protocolsAt, p)| > 0
  {
    prot := NormaliseProtocols(protocols, TopProtocolCount, protocolsAt, p);
    if prot.Empty() {
      prot := Table(ProtocolColumns, []);
    }
  }

  /** A protocol table with the protocol columns is used for the aggregate exactly when it
      has a row. */
  lemma UseDerivedRows(prot: Table<ProtocolRow>)
    requires prot.columns == ProtocolColumns
    ensures UseDerived(prot) <==> |prot.rows| > 0
  {
    assert ProtocolColumns[2] == "category" && ProtocolColumns[4] == "tvl_usd";
  }

  /** `main()` from the three fetches to the four tables it writes. Each payload is the
      decoded answer of its endpoint (None for a 404); `protocolsAt` and `categoriesAt` are
      the timestamps the two snapshot fetches read, `refreshTs` the run's. */
  method RunEtl(chart: Option<Value>, protocols: Option<Value>, categories: Option<Value>,
                protocolsAt: string, categoriesAt: string, refreshTs: string, p: Parsers)
    returns (tvl: Table<TvlPoint>, prot: Table<ProtocolRow>, cats: Table<CategoryRow>,
             meta: Table<MetaRow>)
    ensures tvl.columns == ChartColumns
    ensures multiset(tvl.rows) == multiset(ChartRows(chart, p)) && Ordered(tvl.rows, PointTime, false)
    ensures prot.columns == ProtocolColumns && |prot.rows| <= TopProtocolCount
    ensures multiset(prot.rows) <= multiset(ProtocolRows(protocols, protocolsAt, p))
    ensures prot.rows == Top(ProtocolRows(protocols, protocolsAt, p), ProtocolTvl, TopProtocolCount)
    ensures cats.columns == CategoryColumns
    ensures UseDerived(prot) <==> |prot.rows| > 0
    ensures UseDerived(prot) <==> |ProtocolRows(protocols, protocolsAt, p)| > 0
    ensures UseDerived(prot) ==> cats.rows == Aggregate(prot.rows, refreshTs)
    ensures !UseDerived(prot) ==>
      multiset(cats.rows) == multiset(CategoryRows(categories, categoriesAt, p))
      && Ordered(cats.rows, CategoryTvl, true)
    ensures meta == Table(MetaColumns, [MetaRow(refreshTs, "defillama_macro", "ok", MetaNotes)])
  {
    tvl := LoadChart(chart, p);
    prot := LoadProtocols(protocols, protocolsAt, p);
    UseDerivedRows(prot);
    // The categories normaliser always returns a table, so the `is None` replacement of
    // lines 46-47 never fires.
    var catsApi := NormaliseCategories(categories, categoriesAt, p);
    if UseDerived(prot) {
      cats := Table(CategoryColumns, Aggregate(prot.rows, refreshTs));
    } else {
      cats := catsApi;
    }
    meta := Table(MetaColumns, [MetaRow(refreshTs, "defillama_macro", "ok", MetaNotes)]);
  }

  // ---------------------------------------------------------------- worked example

  function Protocol(category: Value, tvl: real): ProtocolRow {
    ProtocolRow(Str("p"), Str("p"), category, Null, tvl, None, None, None, "t", Source)
  }

  /** The worked example's payload: two Lending protocols of 100 and 50 and one without a
      category of 10. */
  function LendingRows(): seq<ProtocolRow> {
    [Protocol(Str("Lending"), 100.0), Protocol(Str("Lending"), 50.0), Protocol(Null, 10.0)]
  }

  /** The first two rows open one Lending group of 150. */
  lemma LendingFirstTwo(ts: string)
    ensures Groups(LendingRows()[..2], ts) == [CategoryRow(Str("Lending"), 150.0, ts, AggSource)]
  {
    var rows := LendingRows();
    var lending1 := CategoryRow(Str("Lending"), 100.0, ts, AggSource);
    assert rows[..2][..1] == [rows[0]];
    assert Groups([rows[0]], ts) == [lending1] by {
      assert [rows[0]][..0] == [];
      assert IndexOf([], Str("Lending")) == -1;
    }
    assert IndexOf([lending1], Str("Lending")) == 0;
  }

  /** The third row, without a category, opens an Unknown group after the Lending one. */
  lemma LendingGroups(ts: string)
    ensures Groups(LendingRows(), ts)
         == [CategoryRow(Str("Lending"), 150.0, ts, AggSource), CategoryRow(Unknown, 10.0, ts, AggSource)]
  {
    var rows := LendingRows();
    var lending := CategoryRow(Str("Lending"), 150.0, ts, AggSource);
    LendingFirstTwo(ts);
    assert rows[..|rows| - 1] == rows[..2];
    assert CategoryLabel(rows[2]) == Unknown;
    assert IndexOf([lending], Unknown) == -1 by {
      assert [lending][..0] == [];
    }
  }

  /** The two groups are already in descending TVL order. */
  lemma LendingSorted(ts: string)
    ensures var g := [CategoryRow(Str("Lending"), 150.0, ts, AggSource), CategoryRow(Unknown, 10.0, ts, AggSource)];
            Sort(g, CategoryTvl, true) == g
  {
    var lending := CategoryRow(Str("Lending"), 150.0, ts, AggSource);
    var unknown := CategoryRow(Unknown, 10.0, ts, AggSource);
    assert Sort([unknown], CategoryTvl, true) == [unknown] by {
      assert [unknown][1..] == [];
    }
    assert [lending, unknown][1..] == [unknown];
    assert Insert(lending, [unknown], CategoryTvl, true) == [lending, unknown];
  }

  /** Two Lending protocols of 100 and 50 and one without a category of 10 aggregate to
      Lending 150 and Unknown 10. */
  lemma LendingExample(ts: string)
    ensures Aggregate(LendingRows(), ts)
         == [CategoryRow(Str("Lending"), 150.0, ts, AggSource),
             CategoryRow(Unknown, 10.0, ts, AggSource)]
  {
    LendingGroups(ts);
    LendingSorted(ts);
  }
}
