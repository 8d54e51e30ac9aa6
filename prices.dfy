/** The price data of a universe: a stand-in for the pandas frame that holds
    one series per ticker. Dates, float values and the alignment of series on
    their dates are not modelled; a series is the sequence of its values. */
module Prices {
  import opened Tables

  datatype Series = Series(values: seq<Cell>)

  const EMPTY_SERIES: Series := Series([])

  /** A price frame: the column labels in order, and the series under each label. */
  datatype PriceTable = PriceTable(columns: seq<Cell>, data: map<Cell, Series>)

  /** pd.DataFrame(): no columns, no rows. */
  const NO_PRICES: PriceTable := PriceTable([], map[])

  /** Every label has a series and every series a label. */
  predicate Consistent(p: PriceTable)
  {
    p.data.Keys == set c | c in p.columns
  }

  /** DataFrame.empty: no column, or no date in the union of the columns' dates,
      which is to say every series is empty. */
  predicate IsEmpty(p: PriceTable)
  {
    forall c :: c in p.data ==> p.data[c].values == []
  }

  /** The labels a sheet's header row gives its frame's columns. */
  function Labels(headers: seq<string>): (r: seq<Cell>)
    ensures |r| == |headers|
    ensures forall j :: 0 <= j < |headers| ==> r[j] == Text(headers[j])
  {
    seq(|headers|, j requires 0 <= j < |headers| => Text(headers[j]))
  }

  /** Dataset.df: the frame of a price sheet, one column per header (the first
      column under a repeated header), the rows in sheet order. */
  function FromSheet(s: TableValue): (p: PriceTable)
    requires WellFormed(s)
    ensures Consistent(p)
    ensures p.columns == Labels(s.headers)
    ensures forall j :: 0 <= j < |s.headers| ==> |p.data[Text(s.headers[j])].values| == |s.rows|
    ensures forall j :: 0 <= j < |s.headers| && IndexOf(s.headers, s.headers[j]) == j ==>
      p.data[Text(s.headers[j])] == Series(ColumnAt(s, j))
  {
    var labels := Labels(s.headers);
    var data := map h | h in s.headers :: Text(h) := Series(ColumnAt(s, IndexOf(s.headers, h)));
    assert forall c :: c in data <==> c in labels by {
      forall c ensures c in data <==> c in labels {
        if c in labels {
          var j :| 0 <= j < |labels| && labels[j] == c;
          assert s.headers[j] in s.headers;
        }
      }
    }
    PriceTable(labels, data)
  }

  /** The value a price sheet shows at row i of a series: a shorter series is
      padded with empty cells, as missing observations are. */
  function CellAt(s: Series, i: nat): Cell
  {
    if i < |s.values| then s.values[i] else Null
  }

  /** The text of a column label in a sheet's header row. */
  function LabelText(c: Cell): string
  {
    match c
    case Text(t) => t
    case Null => ""
  }

  /** The number of rows of a frame: the length of its longest series. */
  function Height(cols: seq<Cell>, data: map<Cell, Series>): (n: nat)
    requires forall k :: 0 <= k < |cols| ==> cols[k] in data
    ensures forall k :: 0 <= k < |cols| ==> |data[cols[k]].values| <= n
    ensures n == 0 || exists k :: 0 <= k < |cols| && |data[cols[k]].values| == n
  {
    if cols == [] then 0
    else
      var rest := Height(cols[..|cols| - 1], data);
      var last := |data[cols[|cols| - 1]].values|;
      if last > rest then last else rest
  }

  /** A consistent frame is empty exactly when it has no rows. */
  lemma EmptyIffNoRows(p: PriceTable)
    requires Consistent(p)
    ensures IsEmpty(p) <==> Height(p.columns, p.data) == 0
  {
    if !IsEmpty(p) {
      var c :| c in p.data && p.data[c].values != [];
      assert c in p.columns;
      var k :| 0 <= k < |p.columns| && p.columns[k] == c;
    }
  }

  /** Dataset().load(prices.to_csv()): the sheet a frame is saved as, one header
      per column and one row per observation. */
  function ToSheet(p: PriceTable): (s: TableValue)
    requires Consistent(p)
    ensures WellFormed(s)
    ensures |s.headers| == |p.columns|
    ensures |s.rows| == Height(p.columns, p.data)
    ensures forall j :: 0 <= j < |p.columns| ==> s.headers[j] == LabelText(p.columns[j])
    ensures forall i, j :: 0 <= i < |s.rows| && 0 <= j < |p.columns| ==>
      s.rows[i][j] == CellAt(p.data[p.columns[j]], i)
  {
    var n := Height(p.columns, p.data);
    var width := |p.columns|;
    TableValue(
      seq(width, j requires 0 <= j < width => LabelText(p.columns[j])),
      seq(n, i requires 0 <= i < n => seq(width, j requires 0 <= j < width => CellAt(p.data[p.columns[j]], i))))
  }

  /** A series padded with empty cells to n observations. */
  function Padded(s: Series, n: nat): (r: Series)
    ensures |r.values| == n
    ensures forall i :: 0 <= i < n ==> r.values[i] == CellAt(s, i)
    ensures forall i :: 0 <= i < n && i < |s.values| ==> r.values[i] == s.values[i]
    ensures forall i :: |s.values| <= i < n ==> r.values[i] == Null
    ensures n == |s.values| ==> r == s
  {
    Series(seq(n, i requires 0 <= i < n => CellAt(s, i)))
  }

  /** Every column label is a string, as a header row can hold. */
  predicate Labelled(p: PriceTable)
  {
    forall k :: 0 <= k < |p.columns| ==> p.columns[k].Text?
  }

  predicate DistinctLabels(p: PriceTable)
  {
    forall i, j :: 0 <= i < j < |p.columns| ==> p.columns[i] != p.columns[j]
  }

  /** The header row of a frame's sheet reads back as the frame's labels. */
  lemma SheetLabels(p: PriceTable)
    requires Consistent(p) && Labelled(p)
    ensures Labels(ToSheet(p).headers) == p.columns
  {
    var s := ToSheet(p);
    assert forall j :: 0 <= j < |p.columns| ==> Labels(s.headers)[j] == p.columns[j];
  }

  /** Distinct string labels give distinct headers, so each header's first
      occurrence is its own position. */
  lemma SheetHeadersDistinct(p: PriceTable, j: nat)
    requires Consistent(p) && Labelled(p) && DistinctLabels(p) && j < |p.columns|
    ensures IndexOf(ToSheet(p).headers, ToSheet(p).headers[j]) == j
  {
    var h := ToSheet(p).headers;
    var i := IndexOf(h, h[j]);
    assert Text(h[i]) == p.columns[i] && Text(h[j]) == p.columns[j];
  }

  /** The column under label j reads back as that series, padded. */
  lemma SheetColumn(p: PriceTable, j: nat)
    requires Consistent(p) && Labelled(p) && DistinctLabels(p) && j < |p.columns|
    ensures p.columns[j] in FromSheet(ToSheet(p)).data
    ensures FromSheet(ToSheet(p)).data[p.columns[j]] == Padded(p.data[p.columns[j]], Height(p.columns, p.data))
  {
    var s := ToSheet(p);
    SheetHeadersDistinct(p, j);
    assert Text(s.headers[j]) == p.columns[j];
    var col := ColumnAt(s, j);
    assert col == Padded(p.data[p.columns[j]], Height(p.columns, p.data)).values;
  }

  /** q holds p's labels in order, and under each label p's series padded with
      empty cells to p's height. */
  predicate PaddedCopy(q: PriceTable, p: PriceTable)
    requires Consistent(p)
  {
    && q.columns == p.columns
    && forall j :: 0 <= j < |p.columns| ==>
      p.columns[j] in q.data && q.data[p.columns[j]] == Padded(p.data[p.columns[j]], Height(p.columns, p.data))
  }

  /** Reading back the sheet of a frame whose labels are distinct strings gives
      the same labels in the same order, and under each label its series padded
      with empty cells to the frame's height. */
  lemma FromSheetOfToSheet(p: PriceTable)
    requires Consistent(p) && Labelled(p) && DistinctLabels(p)
    ensures PaddedCopy(FromSheet(ToSheet(p)), p)
  {
    SheetLabels(p);
    forall j | 0 <= j < |p.columns|
      ensures p.columns[j] in FromSheet(ToSheet(p)).data
      ensures FromSheet(ToSheet(p)).data[p.columns[j]] == Padded(p.data[p.columns[j]], Height(p.columns, p.data))
    {
      SheetColumn(p, j);
    }
  }
}
