/** The descriptive data of a universe: a stand-in for the tablib dataset
    that holds headers and rows of cells. */
module Tables {

  /** A cell of a dataset: a string, or Python's None (an empty spreadsheet cell). */
  datatype Cell = Text(text: string) | Null

  /** The headers and rows of a dataset, as a value. */
  datatype TableValue = TableValue(headers: seq<string>, rows: seq<seq<Cell>>)

  const EMPTY_TABLE: TableValue := TableValue([], [])

  /** tablib refuses a row whose width differs from the header row's, so every
      dataset it produces is rectangular. */
  predicate WellFormed(t: TableValue)
  {
    forall i :: 0 <= i < |t.rows| ==> |t.rows[i]| == |t.headers|
  }

  /** Python's list.index: the position of the first element equal to x. */
  function IndexOf<T(==)>(s: seq<T>, x: T): (i: nat)
    requires x in s
    ensures i < |s| && s[i] == x
    ensures forall j :: 0 <= j < i ==> s[j] != x
  {
    if s[0] == x then 0 else 1 + IndexOf(s[1..], x)
  }

  /** Appending to a sequence does not move the first occurrence of anything it
      already held, and puts a new element last. */
  lemma {:induction false} IndexOfAppend<T>(s: seq<T>, x: T, y: T)
    requires y in s + [x]
    ensures y in s ==> IndexOf(s + [x], y) == IndexOf(s, y)
    ensures y !in s ==> IndexOf(s + [x], y) == |s|
  {
    if s != [] && s[0] != y {
      assert (s + [x])[1..] == s[1..] + [x];
      IndexOfAppend(s[1..], x, y);
    }
  }

  /** The cells of column j, one per row, in row order. */
  function ColumnAt(t: TableValue, j: nat): (col: seq<Cell>)
    requires WellFormed(t) && j < |t.headers|
    ensures |col| == |t.rows|
    ensures forall i :: 0 <= i < |t.rows| ==> col[i] == t.rows[i][j]
  {
    seq(|t.rows|, i requires 0 <= i < |t.rows| => t.rows[i][j])
  }

  /** A dataset object; tablib changes its contents in place. */
  class Table {
    var headers: seq<string>
    var rows: seq<seq<Cell>>

    ghost predicate Valid()
      reads this
    {
      WellFormed(Value())
    }

    function Value(): TableValue
      reads this
    {
      TableValue(headers, rows)
    }

    constructor (v: TableValue)
      requires WellFormed(v)
      ensures Valid() && Value() == v
    {
      headers, rows := v.headers, v.rows;
    }

    /** Dataset.load: wipes this dataset and refills it with parsed data, keeping
        the object itself. */
    method Load(v: TableValue)
      requires WellFormed(v)
      modifies this
      ensures Valid() && Value() == v
    {
      headers, rows := v.headers, v.rows;
    }

    /** Dataset.append_col: a new last column under the given header, one cell
        per row; the existing cells stay where they are. A dataset with
        headers refuses an empty header (tablib's HeadersNeeded), and then
        nothing changes. */
    method AppendColumn(col: seq<Cell>, header: string) returns (appended: bool)
      requires Valid() && |col| == |rows|
      modifies this
      ensures Valid()
      ensures appended <==> header != [] || old(headers) == []
      ensures !appended ==> headers == old(headers) && rows == old(rows)
      ensures appended ==> headers == old(headers) + [header]
      ensures |rows| == old(|rows|)
      ensures appended ==> forall i :: 0 <= i < |rows| ==> rows[i] == old(rows[i]) + [col[i]]
    {
      if header == [] && headers != [] {
        return false;
      }
      var extended: seq<seq<Cell>> := [];
      var i := 0;
      while i < |rows|
        invariant 0 <= i <= |rows|
        invariant |extended| == i
        invariant forall k :: 0 <= k < i ==> extended[k] == rows[k] + [col[k]]
      {
        extended := extended + [rows[i] + [col[i]]];
        i := i + 1;
      }
      headers, rows := headers + [header], extended;
      appended := true;
    }
  }
}
