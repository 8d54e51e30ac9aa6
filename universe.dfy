/** The universe of equities (equities/universe.py): a descriptive dataset
    with an identifier column, a price frame, a file name and the helper that
    fetches prices. The rules of each operation are stated as functions on
    values; the class Universe applies them to its fields. */
module Equities {
  import opened Tables
  import opened Prices
  import opened Errors
  import opened Paths

  const SUPPORTED_STORAGE_FORMATS: seq<string> := ["xlsx", "json"]
  const DEFAULT_ID_COLUMN: string := "Ticker"
  const DEFAULT_PRICES_YR_PERIOD: int := 5

  /** The collaborator that fetches prices: (ticker, the series already held,
      years of history) to the full series for that ticker. */
  type Helper = (Cell, Series, int) -> Series

  // ---------------------------------------------------------------- formats

  /** The extension of a file name: its suffix without the leading dot. */
  function Extension(filename: string): (ext: string)
    ensures '/' !in ext
    ensures ext == [] || ext[0] != '.'
  {
    LStripRemovesRun(Suffix(filename), '.');
    LStrip(Suffix(filename), '.')
  }

  /** Suffixes hold a single dot, so lstrip removes exactly that one. */
  lemma ExtensionIsSuffixTail(filename: string)
    ensures Suffix(filename) == [] ==> Extension(filename) == []
    ensures Suffix(filename) != [] ==> Extension(filename) == Suffix(filename)[1..]
  {
    var suffix := Suffix(filename);
    if suffix != [] {
      assert suffix[1..][0] == suffix[1] != '.';
      assert LStrip(suffix, '.') == LStrip(suffix[1..], '.');
    }
  }

  /** _detect_file_format: the extension, when it is on the whitelist. */
  function DetectFileFormat(filename: string): (r: Result<string>)
    ensures r.Ok? <==> Extension(filename) in SUPPORTED_STORAGE_FORMATS
    ensures r.Ok? ==> r.value == Extension(filename)
    ensures r.Ok? ==> r.value == Suffix(filename)[1..]
    ensures r.Err? ==> r.error == UnsupportedFormat
  {
    ExtensionIsSuffixTail(filename);
    var ext := Extension(filename);
    if ext in SUPPORTED_STORAGE_FORMATS then Ok(ext) else Err(UnsupportedFormat)
  }

  // ---------------------------------------------------------------- identifier column

  function LowerChar(c: char): char
  {
    if 'A' <= c <= 'Z' then (c as int + 32) as char else c
  }

  /** str.lower, on ASCII letters. */
  function Lower(s: string): (r: string)
    ensures |r| == |s|
    ensures forall i :: 0 <= i < |s| ==> r[i] == LowerChar(s[i])
  {
    seq(|s|, i requires 0 <= i < |s| => LowerChar(s[i]))
  }

  /** The identifier column import_file settles on, given the column names of
      the new data, the requested name and the current one; or the
      IdColumnError it raises. */
  function ResolveIdColumn(colNames: seq<string>, requested: Option<string>, current: string): (r: Result<string>)
    ensures r.Ok? ==> r.value in colNames
    ensures Truthy(requested) ==> (r.Ok? <==> requested.value in colNames)
    ensures Truthy(requested) && r.Ok? ==> r.value == requested.value
    ensures !Truthy(requested) && current in colNames ==> r == Ok(current)
    ensures !Truthy(requested) && current !in colNames ==> (r.Ok? <==> Lower(current) in colNames)
    ensures !Truthy(requested) && current !in colNames && r.Ok? ==> r.value == Lower(current)
    ensures r.Err? ==> r.error.IdColumnError?
  {
    if Truthy(requested) then
      if requested.value !in colNames then
        Err(IdColumnError("Column name '" + requested.value + "' not found in file"))
      else
        Ok(requested.value)
    else if current !in colNames then
      if Lower(current) in colNames then
        Ok(Lower(current))
      else
        Err(IdColumnError("No column named '" + current + "' or '" + Lower(current) + "' in data."))
    else
      Ok(current)
  }

  // ---------------------------------------------------------------- accessors

  /** columns: the headers, or [] while the dataset has no rows. */
  function ColumnsOf(t: TableValue): (r: seq<string>)
    ensures t.rows == [] ==> r == []
    ensures t.rows != [] ==> r == t.headers
  {
    if t.rows == [] then [] else t.headers
  }

  /** tickers: the cells under the identifier column, in row order, or [] while
      the dataset has no rows; a KeyError when the column is missing. */
  function TickersOf(t: TableValue, idColumn: string): (r: Result<seq<Cell>>)
    requires WellFormed(t)
    ensures t.rows == [] ==> r == Ok([])
    ensures t.rows != [] ==> (r.Err? <==> idColumn !in t.headers)
    ensures r.Err? ==> r.error == KeyError(Text(idColumn))
    ensures r.Ok? ==> |r.value| == |t.rows|
    ensures r.Ok? && t.rows != [] ==>
      forall i :: 0 <= i < |t.rows| ==> r.value[i] == t.rows[i][IndexOf(t.headers, idColumn)]
  {
    if t.rows == [] then Ok([])
    else if idColumn !in t.headers then Err(KeyError(Text(idColumn)))
    else Ok(ColumnAt(t, IndexOf(t.headers, idColumn)))
  }

  /** __len__: the number of tickers, which is the number of rows. */
  function LenOf(t: TableValue, idColumn: string): (r: Result<nat>)
    requires WellFormed(t)
    ensures r.Ok? <==> TickersOf(t, idColumn).Ok?
    ensures r.Ok? ==> r.value == |TickersOf(t, idColumn).value| == |t.rows|
    ensures r.Err? ==> r.error == KeyError(Text(idColumn))
  {
    match TickersOf(t, idColumn)
    case Ok(ts) => Ok(|ts|)
    case Err(e) => Err(e)
  }

  /** The literal string 'None' stands for a missing value. */
  function NoneForText(c: Cell): Cell
  {
    if c == Text("None") then Null else c
  }

  function Normalised(row: seq<Cell>): (r: seq<Cell>)
    ensures |r| == |row|
    ensures forall j :: 0 <= j < |row| ==> r[j] == NoneForText(row[j])
  {
    seq(|row|, j requires 0 <= j < |row| => NoneForText(row[j]))
  }

  /** dict(zip(keys, values)) on a header row and a row of the same width. */
  function Zip(keys: seq<string>, values: seq<Cell>): map<string, Cell>
    requires |keys| == |values|
  {
    if keys == [] then map[]
    else Zip(keys[..|keys| - 1], values[..|keys| - 1])[keys[|keys| - 1] := values[|keys| - 1]]
  }

  /** No key after position i repeats keys[i]. */
  predicate LastOccurrence(keys: seq<string>, i: nat)
    requires i < |keys|
  {
    forall j :: i < j < |keys| ==> keys[j] != keys[i]
  }

  /** The zipped map has exactly the given keys. */
  lemma {:induction false} ZipKeys(keys: seq<string>, values: seq<Cell>)
    requires |keys| == |values|
    ensures forall k :: k in Zip(keys, values) <==> k in keys
  {
    if keys != [] {
      var n := |keys|;
      ZipKeys(keys[..n - 1], values[..n - 1]);
      assert keys == keys[..n - 1] + [keys[n - 1]];
    }
  }

  /** Each key maps to the value at its last occurrence. */
  lemma {:induction false} ZipValues(keys: seq<string>, values: seq<Cell>, i: nat)
    requires |keys| == |values|
    requires i < |keys| && LastOccurrence(keys, i)
    ensures keys[i] in Zip(keys, values) && Zip(keys, values)[keys[i]] == values[i]
  {
    var n := |keys|;
    if i < n - 1 {
      var init, vinit := keys[..n - 1], values[..n - 1];
      assert keys[n - 1] != keys[i];
      assert init[i] == keys[i] && vinit[i] == values[i];
      assert LastOccurrence(init, i);
      ZipValues(init, vinit, i);
    }
  }

  /** equity: the first row whose identifier cell is the symbol, as a map from
      column name to cell with 'None' read as None; {} when the dataset has no
      rows or no row matches; a KeyError when the identifier column is missing. */
  function EquityOf(t: TableValue, idColumn: string, symbol: string): (r: Result<map<string, Cell>>)
    requires WellFormed(t)
    ensures t.rows == [] ==> r == Ok(map[])
    ensures t.rows != [] ==> (r.Err? <==> idColumn !in t.headers)
    ensures r.Err? ==> r.error == KeyError(Text(idColumn))
    ensures r.Ok? && t.rows != [] ==>
      (r.value == map[] <==>
        forall i :: 0 <= i < |t.rows| ==> t.rows[i][IndexOf(t.headers, idColumn)] != Text(symbol))
  {
    if t.rows == [] then Ok(map[])
    else if idColumn !in t.headers then Err(KeyError(Text(idColumn)))
    else
      var col := ColumnAt(t, IndexOf(t.headers, idColumn));
      if Text(symbol) !in col then Ok(map[])
      else
        var row := t.rows[IndexOf(col, Text(symbol))];
        ZipKeys(t.headers, Normalised(row));
        assert t.headers[0] in Zip(t.headers, Normalised(row));
        Ok(Zip(ColumnsOf(t), Normalised(row)))
  }

  // ---------------------------------------------------------------- add_column

  /** add_column on the dataset's value: a new last column of '' under the
      name, unless the dataset has no rows or already has that column; an
      empty name for a dataset with headers is refused. */
  function WithColumn(t: TableValue, name: string): (r: Result<TableValue>)
    ensures r.Err? <==> t.rows != [] && name !in t.headers && name == [] && t.headers != []
    ensures r.Err? ==> r.error == HeadersNeeded
    ensures r.Ok? ==> |r.value.rows| == |t.rows| && |t.headers| <= |r.value.headers| && r.value.headers[..|t.headers|] == t.headers
    ensures r.Ok? && t.rows != [] ==> name in ColumnsOf(r.value)
  {
    if t.rows == [] || name in ColumnsOf(t) then Ok(t)
    else if name == [] && t.headers != [] then Err(HeadersNeeded)
    else Ok(TableValue(t.headers + [name], seq(|t.rows|, i requires 0 <= i < |t.rows| => t.rows[i] + [Text("")])))
  }

  // ---------------------------------------------------------------- prices

  /** One call of the helper: its three arguments. */
  datatype Call = Call(ticker: Cell, existing: Series, period: int)

  /** The series fetch_prices hands the helper for a ticker: an empty one while
      the price frame is empty, else the frame's column, which must exist. */
  function Existing(current: PriceTable, ticker: Cell): Result<Series>
  {
    if IsEmpty(current) then Ok(EMPTY_SERIES)
    else if ticker in current.data then Ok(current.data[ticker])
    else Err(KeyError(ticker))
  }

  /** The helper gets an empty series exactly while the frame is empty, and
      otherwise the frame's own column, which must exist. */
  lemma ExistingSeries(current: PriceTable, ticker: Cell)
    ensures var r := Existing(current, ticker);
      && (r.Err? <==> !IsEmpty(current) && ticker !in current.data)
      && (r.Err? ==> r.error == KeyError(ticker))
      && (IsEmpty(current) ==> r == Ok(EMPTY_SERIES))
      && (!IsEmpty(current) && r.Ok? ==> r.value == current.data[ticker])
  {
  }

  /** The keys of a Python dict filled in the order of s: each element once
      (the order is DedupFirstOccurrenceOrder). */
  function Dedup(s: seq<Cell>): (r: seq<Cell>)
    ensures forall x :: x in r <==> x in s
    ensures forall i, j :: 0 <= i < j < |r| ==> r[i] != r[j]
  {
    if s == [] then []
    else
      var init, last := s[..|s| - 1], s[|s| - 1];
      assert s == init + [last];
      assert forall x :: x in s <==> x in init || x == last;
      var rest := Dedup(init);
      if last in init then rest else rest + [last]
  }

  /** r lists elements of s in the order of their first occurrence in s. */
  predicate InFirstOccurrenceOrder(r: seq<Cell>, s: seq<Cell>)
  {
    forall i, j :: 0 <= i < j < |r| ==> r[i] in s && r[j] in s && IndexOf(s, r[i]) < IndexOf(s, r[j])
  }

  /** Appending to s keeps the first occurrences of what s held; appending a
      new element to both keeps the order. */
  lemma InFirstOccurrenceOrderAppend(rest: seq<Cell>, init: seq<Cell>, last: Cell)
    requires InFirstOccurrenceOrder(rest, init)
    requires forall y :: y in rest ==> y in init
    ensures InFirstOccurrenceOrder(rest, init + [last])
    ensures last !in init ==> InFirstOccurrenceOrder(rest + [last], init + [last])
  {
    forall y | y in rest ensures IndexOf(init + [last], y) == IndexOf(init, y) {
      IndexOfAppend(init, last, y);
    }
    if last !in init {
      IndexOfAppend(init, last, last);
      var r := rest + [last];
      forall i, j | 0 <= i < j < |r|
        ensures r[i] in init + [last] && r[j] in init + [last] && IndexOf(init + [last], r[i]) < IndexOf(init + [last], r[j])
      {
        assert r[i] == rest[i] && rest[i] in rest;
        if j < |rest| {
          assert r[j] == rest[j] && rest[j] in rest;
        } else {
          assert IndexOf(init, rest[i]) < |init|;
        }
      }
    }
  }

  /** The dict's keys come in the order of their first occurrence in s. */
  lemma {:induction false} DedupFirstOccurrenceOrder(s: seq<Cell>)
    ensures InFirstOccurrenceOrder(Dedup(s), s)
  {
    if s != [] {
      var init, last := s[..|s| - 1], s[|s| - 1];
      assert s == init + [last];
      DedupFirstOccurrenceOrder(init);
      InFirstOccurrenceOrderAppend(Dedup(init), init, last);
    }
  }

  lemma DedupAppend(s: seq<Cell>, x: Cell)
    ensures Dedup(s + [x]) == if x in s then Dedup(s) else Dedup(s) + [x]
  {
    assert (s + [x])[..|s|] == s;
  }

  /** One more element of a prefix, stated once for the fetch loop. */
  lemma PrefixStep(s: seq<Cell>, i: nat)
    requires i < |s|
    ensures s[..i + 1] == s[..i] + [s[i]]
  {
  }

  /** c is the call fetch_prices makes for ticker t. */
  predicate CallFor(c: Call, current: PriceTable, t: Cell, period: int)
  {
    Existing(current, t).Ok? && c == Call(t, Existing(current, t).value, period)
  }

  /** Every series in data is the helper's answer for its ticker. */
  predicate HelperResults(data: map<Cell, Series>, current: PriceTable, period: int, helper: Helper)
  {
    forall t :: t in data ==>
      Existing(current, t).Ok? && data[t] == helper(t, Existing(current, t).value, period)
  }

  /** Storing the helper's answer for a ticker the frame can serve keeps every
      stored series the helper's answer. */
  lemma HelperResultsUpdate(data: map<Cell, Series>, current: PriceTable, period: int, helper: Helper, ticker: Cell)
    requires HelperResults(data, current, period, helper)
    requires Existing(current, ticker).Ok?
    ensures HelperResults(data[ticker := helper(ticker, Existing(current, ticker).value, period)],
                          current, period, helper)
  {
    var updated := data[ticker := helper(ticker, Existing(current, ticker).value, period)];
    forall t | t in updated
      ensures Existing(current, t).Ok? && updated[t] == helper(t, Existing(current, t).value, period)
    {
      if t != ticker { assert t in data; }
    }
  }

  /** The loop of fetch_prices: one helper call per ticker, in ticker order,
      collected into a frame with one column per distinct ticker. It stops at
      the first ticker the non-empty price frame has no column for. */
  method CollectPrices(tickers: seq<Cell>, current: PriceTable, period: int, helper: Helper)
    returns (calls: seq<Call>, r: Result<PriceTable>)
    ensures |calls| <= |tickers|
    ensures forall k :: 0 <= k < |calls| ==> CallFor(calls[k], current, tickers[k], period)
    ensures r.Err? ==> |calls| < |tickers| && Existing(current, tickers[|calls|]) == Err(r.error)
    ensures r.Ok? ==> |calls| == |tickers|
    ensures r.Ok? ==> Consistent(r.value) && r.value.columns == Dedup(tickers)
    ensures r.Ok? ==> forall t :: t in r.value.data <==> t in tickers
    ensures r.Ok? ==> HelperResults(r.value.data, current, period, helper)
  {
    calls := [];
    var order: seq<Cell> := [];
    var fetched: map<Cell, Series> := map[];
    var i := 0;
    while i < |tickers|
      invariant 0 <= i <= |tickers|
      invariant |calls| == i
      invariant forall k :: 0 <= k < i ==> CallFor(calls[k], current, tickers[k], period)
      invariant order == Dedup(tickers[..i])
      invariant forall t :: t in fetched <==> t in order
      invariant HelperResults(fetched, current, period, helper)
    {
      var ticker := tickers[i];
      var existing := Existing(current, ticker);
      if existing.Err? {
        return calls, Err(existing.error);
      }
      DedupAppend(tickers[..i], ticker);
      PrefixStep(tickers, i);
      if ticker !in fetched {
        order := order + [ticker];
      }
      HelperResultsUpdate(fetched, current, period, helper, ticker);
      fetched := fetched[ticker := helper(ticker, existing.value, period)];
      assert CallFor(Call(ticker, existing.value, period), current, ticker, period);
      calls := calls + [Call(ticker, existing.value, period)];
      i := i + 1;
    }
    assert tickers[..i] == tickers;
    r := Ok(PriceTable(order, fetched));
  }

  // ---------------------------------------------------------------- persistence

  /** The file save writes to: the argument when given, else the stored name. */
  function SaveTarget(arg: Option<string>, stored: Option<string>): (r: Result<string>)
    ensures r.Err? <==> !Truthy(arg) && !Truthy(stored)
    ensures r.Err? ==> r.error == UniverseFilenameNotSet
    ensures Truthy(arg) ==> r == Ok(arg.value)
    ensures !Truthy(arg) && Truthy(stored) ==> r == Ok(stored.value)
  {
    if !Truthy(arg) && !Truthy(stored) then Err(UniverseFilenameNotSet)
    else if Truthy(arg) then Ok(arg.value)
    else Ok(stored.value)
  }

  /** The sheets save writes: the descriptive data first, then the prices when
      the price frame is not empty. */
  function ArchiveOf(equities: TableValue, prices: PriceTable): (book: seq<TableValue>)
    requires Consistent(prices)
    ensures 1 <= |book| <= 2 && book[0] == equities
    ensures |book| == 2 <==> !IsEmpty(prices)
    ensures |book| == 2 ==> book[1] == ToSheet(prices)
  {
    if IsEmpty(prices) then [equities] else [equities, ToSheet(prices)]
  }

  /** The format of the bytes save writes, whatever the file is called. */
  const SAVED_FORMAT: string := "xlsx"

  /** The contents of a universe file: the format its bytes are in, and the
      sheets they hold. */
  datatype Archive = Archive(format: string, sheets: seq<TableValue>)

  predicate Readable(a: Archive)
  {
    forall k :: 0 <= k < |a.sheets| ==> WellFormed(a.sheets[k])
  }

  /** What a file holds for load: its descriptive data and its price frame. */
  datatype Loaded = Loaded(equities: TableValue, prices: PriceTable)

  /** load on a file's contents: the format check on the name comes first; the
      bytes are then parsed in that format, which fails when they are in
      another; the first sheet is the descriptive data; the second, if any,
      the prices. */
  function LoadArchive(universeFile: string, archive: Archive): (r: Result<Loaded>)
    requires Readable(archive)
    ensures DetectFileFormat(universeFile).Err? ==> r == Err(UnsupportedFormat)
    ensures DetectFileFormat(universeFile).Ok? && archive.format != DetectFileFormat(universeFile).value ==>
      r == Err(ParseError(DetectFileFormat(universeFile).value))
    ensures r.Ok? <==> DetectFileFormat(universeFile) == Ok(archive.format) && archive.sheets != []
    ensures DetectFileFormat(universeFile) == Ok(archive.format) && archive.sheets == [] ==> r == Err(IndexError)
    ensures r.Ok? ==> r.value.equities == archive.sheets[0] && WellFormed(r.value.equities)
    ensures r.Ok? ==> Consistent(r.value.prices)
    ensures r.Ok? && |archive.sheets| == 1 ==> r.value.prices == NO_PRICES
    ensures r.Ok? && |archive.sheets| > 1 ==> r.value.prices == FromSheet(archive.sheets[1])
  {
    match DetectFileFormat(universeFile)
    case Err(e) => Err(e)
    case Ok(fileFormat) =>
      var book := archive.sheets;
      if archive.format != fileFormat then Err(ParseError(fileFormat))
      else if book == [] then Err(IndexError)
      else Ok(Loaded(book[0], if |book| > 1 then FromSheet(book[1]) else NO_PRICES))
  }

  /** What save writes: the file and its contents. */
  datatype Written = Written(path: string, contents: Archive)

  // ---------------------------------------------------------------- the container

  class Universe {
    var idColumnName: string
    const pricesYrPeriod: int
    const pricesHelper: Helper
    var filename: Option<string>
    var universeFile: Option<seq<TableValue>>
    var equities: Table
    var prices: PriceTable

    ghost predicate Valid()
      reads this, equities
    {
      equities.Valid() && Consistent(prices)
    }

    /** __init__ without a file to load: an empty dataset and an empty frame. */
    constructor Init(filename: Option<string>, pricesHelper: Helper, pricesYrPeriod: int)
      requires !Truthy(filename)
      ensures Valid() && fresh(equities)
      ensures idColumnName == DEFAULT_ID_COLUMN
      ensures this.filename == filename && universeFile == None
      ensures this.pricesHelper == pricesHelper && this.pricesYrPeriod == pricesYrPeriod
      ensures equities.Value() == EMPTY_TABLE && prices == NO_PRICES
    {
      idColumnName := DEFAULT_ID_COLUMN;
      this.pricesYrPeriod := pricesYrPeriod;
      this.filename := filename;
      this.pricesHelper := pricesHelper;
      universeFile := None;
      prices := NO_PRICES;
      equities := new Table(EMPTY_TABLE);
    }

    /** Universe(filename, prices_helper, prices_yr_period): loads the file when
        a name is given, and fails as load does. No helper means the network
        downloader, which the caller supplies; archive is what the file holds. */
    static method Create(filename: Option<string>, pricesHelper: Option<Helper>, pricesYrPeriod: int,
                         downloader: Helper, archive: Archive)
      returns (r: Result<Universe>)
      requires Readable(archive)
      ensures r.Ok? ==> fresh(r.value) && fresh(r.value.equities) && r.value.Valid()
      ensures r.Ok? ==> r.value.idColumnName == DEFAULT_ID_COLUMN && r.value.filename == filename
      ensures r.Ok? ==> r.value.pricesYrPeriod == pricesYrPeriod
      ensures r.Ok? ==> r.value.pricesHelper == if pricesHelper.Some? then pricesHelper.value else downloader
      ensures !Truthy(filename) ==>
        (r.Ok? && r.value.universeFile == None &&
         r.value.equities.Value() == EMPTY_TABLE && r.value.prices == NO_PRICES)
      ensures Truthy(filename) ==> (r.Ok? <==> LoadArchive(filename.value, archive).Ok?)
      ensures Truthy(filename) && r.Err? ==> r.error == LoadArchive(filename.value, archive).error
      ensures Truthy(filename) && r.Ok? ==>
        (r.value.universeFile == Some(archive.sheets) &&
         r.value.equities.Value() == LoadArchive(filename.value, archive).value.equities &&
         r.value.prices == LoadArchive(filename.value, archive).value.prices)
    {
      var helper := if pricesHelper.Some? then pricesHelper.value else downloader;
      var u := new Universe.Init(if Truthy(filename) then None else filename, helper, pricesYrPeriod);
      if Truthy(filename) {
        u.filename := filename;
        var loaded := u.Load(filename.value, archive);
        if loaded.Fail? {
          return Err(loaded.error);
        }
      }
      r := Ok(u);
    }

    function Columns(): (r: seq<string>)
      reads this, equities
      ensures equities.rows == [] ==> r == []
      ensures equities.rows != [] ==> r == equities.headers
    {
      ColumnsOf(equities.Value())
    }

    function Tickers(): (r: Result<seq<Cell>>)
      requires Valid()
      reads this, equities
      ensures equities.rows == [] ==> r == Ok([])
      ensures equities.rows != [] ==> (r.Err? <==> idColumnName !in equities.headers)
      ensures r.Ok? ==> |r.value| == |equities.rows|
    {
      TickersOf(equities.Value(), idColumnName)
    }

    function Len(): (r: Result<nat>)
      requires Valid()
      reads this, equities
      ensures r.Ok? <==> Tickers().Ok?
      ensures r.Ok? ==> r.value == |equities.rows|
    {
      LenOf(equities.Value(), idColumnName)
    }

    function Equity(tickerSymbol: string): (r: Result<map<string, Cell>>)
      requires Valid()
      reads this, equities
      ensures equities.rows == [] ==> r == Ok(map[])
      ensures equities.rows != [] ==> (r.Err? <==> idColumnName !in equities.headers)
      ensures r.Err? ==> r.error == KeyError(Text(idColumnName))
    {
      EquityOf(equities.Value(), idColumnName, tickerSymbol)
    }

    /** import_file on the parsed contents of a file. The dataset is reloaded in
        place, so restoring the saved reference on failure restores the same,
        already reloaded, object: only the identifier column is kept. */
    method ImportFile(parsed: TableValue, idColumn: Option<string>) returns (r: Outcome)
      requires Valid() && WellFormed(parsed)
      modifies this, equities
      ensures Valid()
      ensures equities == old(equities) && equities.Value() == parsed
      ensures var resolved := ResolveIdColumn(ColumnsOf(parsed), idColumn, old(idColumnName));
        && (r.Pass? <==> resolved.Ok?)
        && (r.Pass? ==> idColumnName == resolved.value)
        && (r.Fail? ==> r.error == resolved.error && idColumnName == old(idColumnName))
      ensures filename == old(filename) && universeFile == old(universeFile) && prices == old(prices)
    {
      var oldEquities := equities;
      equities.Load(parsed);
      var colNames := ColumnsOf(equities.Value());
      if Truthy(idColumn) {
        if idColumn.value !in colNames {
          equities := oldEquities;
          return Fail(IdColumnError("Column name '" + idColumn.value + "' not found in file"));
        } else {
          idColumnName := idColumn.value;
        }
      } else {
        if idColumnName !in colNames {
          if Lower(idColumnName) in colNames {
            idColumnName := Lower(idColumnName);
          } else {
            equities := oldEquities;
            return Fail(IdColumnError("No column named '" + idColumnName + "' or '" + Lower(idColumnName) + "' in data."));
          }
        }
      }
      r := Pass;
    }

    /** save: writes the descriptive sheet, and the price sheet when there are
        prices, to the given file or the stored one, and stores a given name. */
    method Save(arg: Option<string>) returns (r: Result<Written>)
      requires Valid()
      modifies this
      ensures Valid()
      ensures SaveTarget(arg, old(filename)).Err? ==> r == Err(UniverseFilenameNotSet) && filename == old(filename)
      ensures SaveTarget(arg, old(filename)).Ok? ==>
        r == Ok(Written(SaveTarget(arg, old(filename)).value, Archive(SAVED_FORMAT, ArchiveOf(equities.Value(), prices)))) &&
        filename == Some(SaveTarget(arg, old(filename)).value)
      ensures equities == old(equities) && prices == old(prices) && idColumnName == old(idColumnName)
      ensures universeFile == old(universeFile)
    {
      if !Truthy(arg) && !Truthy(filename) {
        return Err(UniverseFilenameNotSet);
      } else if Truthy(arg) {
        filename := arg;
      }
      var book := [equities.Value()];
      if !IsEmpty(prices) {
        book := book + [ToSheet(prices)];
        assert book == [equities.Value(), ToSheet(prices)];
      }
      r := Ok(Written(filename.value, Archive(SAVED_FORMAT, book)));
    }

    /** load on the contents of universeFileName: an unsupported extension, or
        bytes in another format, change nothing; an archive without sheets
        fails after the archive is kept; otherwise the first sheet becomes a
        new dataset and the second, if any, the price frame. The file name is
        not touched. */
    method Load(universeFileName: string, archive: Archive) returns (r: Outcome)
      requires Valid() && Readable(archive)
      modifies this
      ensures Valid()
      ensures filename == old(filename) && idColumnName == old(idColumnName)
      ensures DetectFileFormat(universeFileName) != Ok(archive.format) ==>
        r == Fail(LoadArchive(universeFileName, archive).error) && universeFile == old(universeFile) &&
        equities == old(equities) && prices == old(prices)
      ensures DetectFileFormat(universeFileName) == Ok(archive.format) ==> universeFile == Some(archive.sheets)
      ensures LoadArchive(universeFileName, archive).Err? ==>
        r == Fail(LoadArchive(universeFileName, archive).error) &&
        equities == old(equities) && prices == old(prices)
      ensures LoadArchive(universeFileName, archive).Ok? ==>
        r == Pass && fresh(equities) &&
        equities.Value() == LoadArchive(universeFileName, archive).value.equities &&
        prices == LoadArchive(universeFileName, archive).value.prices
    {
      var fileFormat := DetectFileFormat(universeFileName);
      if fileFormat.Err? {
        return Fail(fileFormat.error);
      }
      if archive.format != fileFormat.value {
        return Fail(ParseError(fileFormat.value));
      }
      universeFile := Some(archive.sheets);
      var book := archive.sheets;
      if |book| == 0 {
        return Fail(IndexError);
      }
      equities := new Table(book[0]);
      if |book| > 1 {
        prices := FromSheet(book[1]);
      } else {
        prices := NO_PRICES;
      }
      r := Pass;
    }

    /** fetch_prices: the helper called once per ticker, in ticker order; the
        frame of their results replaces the old one. Also returns the calls. */
    method FetchPrices() returns (calls: seq<Call>, r: Outcome)
      requires Valid()
      modifies this
      ensures Valid()
      ensures equities == old(equities) && idColumnName == old(idColumnName)
      ensures filename == old(filename) && universeFile == old(universeFile)
      ensures old(Tickers()).Err? ==> calls == [] && r == Fail(old(Tickers()).error) && prices == old(prices)
      ensures old(Tickers()).Ok? ==>
        var ts := old(Tickers()).value;
        && |calls| <= |ts|
        && (forall k :: 0 <= k < |calls| ==> CallFor(calls[k], old(prices), ts[k], pricesYrPeriod))
        && (r.Pass? ==> |calls| == |ts| && ts != [] && prices.columns == Dedup(ts))
        && (r.Pass? ==> forall t :: t in prices.data <==> t in ts)
        && (r.Pass? ==> HelperResults(prices.data, old(prices), pricesYrPeriod, pricesHelper))
        && (r.Fail? ==> prices == old(prices))
        && (r.Fail? && |calls| < |ts| ==> Existing(old(prices), ts[|calls|]) == Err(r.error))
        && (r.Fail? && |calls| == |ts| ==> ts == [] && r.error.ValueError?)
    {
      var ts := Tickers();
      if ts.Err? {
        return [], Fail(ts.error);
      }
      var collected;
      calls, collected := CollectPrices(ts.value, prices, pricesYrPeriod, pricesHelper);
      if collected.Err? {
        return calls, Fail(collected.error);
      }
      if collected.value.columns == [] {
        return calls, Fail(ValueError("No objects to concatenate"));
      }
      prices := collected.value;
      r := Pass;
    }

    /** add_column: a new last column of '' under the name, unless the dataset
        has no rows or already has that column; the dataset's refusal of an
        empty name leaves it as it was. */
    method AddColumn(columnName: string) returns (r: Outcome)
      requires Valid()
      modifies equities
      ensures Valid()
      ensures WithColumn(old(equities.Value()), columnName).Ok? ==>
        r == Pass && equities.Value() == WithColumn(old(equities.Value()), columnName).value
      ensures WithColumn(old(equities.Value()), columnName).Err? ==>
        r == Fail(HeadersNeeded) && equities.Value() == old(equities.Value())
    {
      r := Pass;
      if equities.rows != [] {
        if columnName !in Columns() {
          var emptyRows := seq(|equities.rows|, i => Text(""));
          var appended := equities.AppendColumn(emptyRows, columnName);
          if !appended {
            r := Fail(HeadersNeeded);
          }
        }
      }
    }
  }
}
