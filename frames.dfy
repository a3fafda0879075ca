/** A pandas DataFrame as the marts and the dashboards see one: an ordered list of column
    names and, per row, a map from column name to cell. A cell a row does not hold reads as
    null, like pandas' NaN in a column the row was never given a value for. */
module Frames {
  import opened Values

  /** The exceptions the modelled code lets escape. */
  datatype PyError =
    | KeyError(keys: seq<string>)     // a missing column
    | AttributeError(owner: string)   // `.fillna` on something that is not a Series
    | TypeError                       // values of different kinds compared
    | IndexError                      // a position past either end of a Series
    | IndexingError                   // a boolean Series indexer that does not align

  type Row = map<string, Value>

  datatype Frame = Frame(columns: seq<string>, rows: seq<Row>) {
    /** `DataFrame.empty`: no columns or no rows. */
    predicate Empty() { |columns| == 0 || |rows| == 0 }
  }

  /** `df[c]` as a list of cells, in row order. */
  function Column(f: Frame, c: string): (cells: seq<Value>)
    ensures |cells| == |f.rows|
    ensures forall k :: 0 <= k < |f.rows| ==> cells[k] == Get(f.rows[k], c)
  {
    seq(|f.rows|, k requires 0 <= k < |f.rows| => Get(f.rows[k], c))
  }

  /** `df[c] = cells`: an existing column keeps its place, a new one goes last. */
  function SetColumn(f: Frame, c: string, cells: seq<Value>): (g: Frame)
    requires |cells| == |f.rows|
    ensures g.columns == if c in f.columns then f.columns else f.columns + [c]
    ensures |g.rows| == |f.rows|
    ensures forall k :: 0 <= k < |g.rows| ==> g.rows[k] == f.rows[k][c := cells[k]]
  {
    Frame(if c in f.columns then f.columns else f.columns + [c],
          seq(|f.rows|, k requires 0 <= k < |f.rows| => f.rows[k][c := cells[k]]))
  }

  /** One row cut down to the given columns. */
  function Project(row: Row, cols: seq<string>): (r: Row)
    ensures r.Keys == set c | c in cols
    ensures forall c :: c in cols ==> r[c] == Get(row, c)
  {
    map c | c in cols :: Get(row, c)
  }

  /** `df[cols]` once every name in `cols` is known to be a column: those columns, in that
      order, and every row. */
  function Select(f: Frame, cols: seq<string>): (g: Frame)
    ensures g.columns == cols && |g.rows| == |f.rows|
    ensures forall k :: 0 <= k < |g.rows| ==> g.rows[k] == Project(f.rows[k], cols)
  {
    Frame(cols, seq(|f.rows|, k requires 0 <= k < |f.rows| => Project(f.rows[k], cols)))
  }

  /** The names of `cols` that are not columns of `f`, in the order of `cols`: what pandas
      reports in the KeyError of `df[cols]` or `dropna(subset=cols)`. */
  function Missing(f: Frame, cols: seq<string>): (m: seq<string>)
    ensures forall c :: c in m <==> c in cols && c !in f.columns
  {
    if cols == [] then []
    else Missing(f, cols[..|cols| - 1])
         + (if cols[|cols| - 1] in f.columns then [] else [cols[|cols| - 1]])
  }

  /** `next((c for c in candidates if c in columns), None)`: the first candidate that is a
      column. */
  function FirstPresent(candidates: seq<string>, columns: seq<string>): (r: Option<string>)
    ensures r.None? <==> forall i :: 0 <= i < |candidates| ==> candidates[i] !in columns
    ensures r.Some? ==> exists i :: 0 <= i < |candidates| && candidates[i] == r.value
                         && r.value in columns
                         && forall j :: 0 <= j < i ==> candidates[j] !in columns
  {
    if candidates == [] then None
    else if candidates[0] in columns then Some(candidates[0])
    else
      var r := FirstPresent(candidates[1..], columns);
      assert forall i :: 0 < i < |candidates| ==> candidates[i] == candidates[1..][i - 1];
      if r.Some? then
        ghost var i :| 0 <= i < |candidates[1..]| && candidates[1..][i] == r.value
                       && forall j :: 0 <= j < i ==> candidates[1..][j] !in columns;
        assert candidates[i + 1] == r.value;
        r
      else r
  }

  /** Two candidate lists agree on every frame whose columns agree on the candidates. */
  lemma {:induction false} FirstPresentSame(candidates: seq<string>, a: seq<string>, b: seq<string>)
    requires forall c :: c in candidates ==> (c in a <==> c in b)
    ensures FirstPresent(candidates, a) == FirstPresent(candidates, b)
  {
    if candidates != [] {
      FirstPresentSame(candidates[1..], a, b);
    }
  }
}
