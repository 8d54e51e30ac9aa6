/** What the rules of a universe promise, and the scenarios of its tests. */
module UniverseProperties {
  import opened Tables
  import opened Errors
  import opened Prices
  import opened Paths
  import opened Equities

  // ---------------------------------------------------------------- formats

  /** A file name made of a directory, a stem and an extension is accepted
      exactly when the extension is on the whitelist, and then yields it. */
  lemma DetectFileFormatOfJoin(dir: string, stem: string, ext: string)
    requires dir == [] || dir[|dir| - 1] == '/'
    requires stem != [] && '/' !in stem
    requires ext != [] && '/' !in ext && '.' !in ext
    ensures DetectFileFormat(dir + stem + "." + ext) ==
      if ext in SUPPORTED_STORAGE_FORMATS then Ok(ext) else Err(UnsupportedFormat)
  {
    SuffixOfJoin(dir, stem, ext);
  }

  /** An accepted name's final component ends in a dot and the format, with
      something before the dot. */
  lemma DetectFileFormatShape(filename: string)
    requires DetectFileFormat(filename).Ok?
    ensures var name, ext := Name(filename), DetectFileFormat(filename).value;
      |name| > |ext| + 1 && name[|name| - |ext| - 1..] == "." + ext
  {
    var name, suffix := Name(filename), Suffix(filename);
    ExtensionIsSuffixTail(filename);
    var ext := DetectFileFormat(filename).value;
    assert suffix != [] && ext == suffix[1..];
    assert suffix == [suffix[0]] + suffix[1..];
    assert suffix == "." + ext;
    ComponentSuffixIsTail(name);
    assert |name| > |suffix| && name[|name| - |suffix|..] == suffix;
  }

  /** A name without a dot has no suffix. */
  lemma DetectFileFormatWithoutDot(name: string)
    requires name != [] && '/' !in name && '.' !in name
    ensures DetectFileFormat(name) == Err(UnsupportedFormat)
  {
    LastComponentOfJoin("", name);
    assert "" + name == name;
    assert StripTrailingSeparators(name) == name;
    assert RFind(name, '.') == -1;
    assert Suffix(name) == "";
    assert LStrip("", '.') == "";
  }

  /** A name whose only dot comes first, a hidden file, has no suffix. */
  lemma DetectFileFormatHidden(ext: string)
    requires ext != [] && '/' !in ext && '.' !in ext
    ensures DetectFileFormat("." + ext) == Err(UnsupportedFormat)
  {
    NameOfJoin("", "", ext);
    assert "" + "" + "." + ext == "." + ext;
    RFindBeforeTail("", '.', ext);
    assert "" + ['.'] + ext == "." + ext;
    assert Suffix("." + ext) == "";
    assert LStrip("", '.') == "";
  }

  /** The match is exact and case-sensitive: of xlsx, json, XLSX and csv
      (which import_file reads), only the first two pass. */
  lemma DetectFileFormatExtensions(dir: string, stem: string, ext: string)
    requires dir == [] || dir[|dir| - 1] == '/'
    requires stem != [] && '/' !in stem
    requires ext in ["xlsx", "json", "XLSX", "csv"]
    ensures DetectFileFormat(dir + stem + "." + ext).Ok? <==> ext == "xlsx" || ext == "json"
    ensures DetectFileFormat(dir + stem + "." + ext).Ok? ==> DetectFileFormat(dir + stem + "." + ext).value == ext
  {
    DetectFileFormatOfJoin(dir, stem, ext);
  }

  // ---------------------------------------------------------------- import_file

  /** A successful import has rows, and its columns are the parsed header row. */
  lemma ImportedColumnsAreHeaders(parsed: TableValue, requested: Option<string>, current: string)
    requires ResolveIdColumn(ColumnsOf(parsed), requested, current).Ok?
    ensures parsed.rows != [] && ColumnsOf(parsed) == parsed.headers
  {
  }

  /** A file with a header row but no rows never imports: columns is then []. */
  lemma ImportWithoutRowsFails(parsed: TableValue, requested: Option<string>, current: string)
    requires parsed.rows == []
    ensures ResolveIdColumn(ColumnsOf(parsed), requested, current).Err?
  {
  }

  /** The fallback to lower case sticks: once the identifier column is
      'ticker', a later file whose column is 'Ticker' is refused. */
  lemma FallbackIsOneWay()
    ensures ResolveIdColumn(["ticker"], None, DEFAULT_ID_COLUMN) == Ok("ticker")
    ensures ResolveIdColumn(["Ticker"], None, "ticker").Err?
  {
    assert Lower(DEFAULT_ID_COLUMN) == "ticker";
    assert Lower("ticker") == "ticker";
  }

  // ---------------------------------------------------------------- equity

  /** equity returns the first matching row, zipped with the headers, with the
      'None' string read as None. */
  lemma {:induction false} EquityFirstMatch(t: TableValue, idColumn: string, symbol: string, i: nat)
    requires WellFormed(t) && idColumn in t.headers && i < |t.rows|
    requires t.rows[i][IndexOf(t.headers, idColumn)] == Text(symbol)
    requires forall k :: 0 <= k < i ==> t.rows[k][IndexOf(t.headers, idColumn)] != Text(symbol)
    ensures EquityOf(t, idColumn, symbol).Ok?
    ensures forall h :: h in EquityOf(t, idColumn, symbol).value <==> h in t.headers
    ensures forall j :: 0 <= j < |t.headers| && LastOccurrence(t.headers, j) ==>
      EquityOf(t, idColumn, symbol).value[t.headers[j]] == NoneForText(t.rows[i][j])
  {
    var pos := IndexOf(t.headers, idColumn);
    var col := ColumnAt(t, pos);
    assert col[i] == Text(symbol);
    assert IndexOf(col, Text(symbol)) == i;
    var row := Normalised(t.rows[i]);
    assert EquityOf(t, idColumn, symbol) == Ok(Zip(t.headers, row));
    ZipKeys(t.headers, row);
    forall j | 0 <= j < |t.headers| && LastOccurrence(t.headers, j)
      ensures Zip(t.headers, row)[t.headers[j]] == NoneForText(t.rows[i][j])
    {
      ZipValues(t.headers, row, j);
    }
  }

  /** A ticker that no row holds gives {}, as an empty dataset does; the
      module defines no TickerSymbolNotFound to raise. */
  lemma EquityOfMissingTicker(t: TableValue, idColumn: string, symbol: string)
    requires WellFormed(t) && idColumn in t.headers
    requires forall i :: 0 <= i < |t.rows| ==> t.rows[i][IndexOf(t.headers, idColumn)] != Text(symbol)
    ensures EquityOf(t, idColumn, symbol) == Ok(map[])
  {
  }

  // ---------------------------------------------------------------- add_column

  lemma AddColumnNoOp(t: TableValue, name: string)
    requires t.rows == [] || name in t.headers
    ensures WithColumn(t, name) == Ok(t)
  {
  }

  /** Otherwise a non-empty name becomes the last header, every row gains ''
      under it, and every other cell stays where it was. */
  lemma AddColumnAppends(t: TableValue, name: string)
    requires WellFormed(t) && t.rows != [] && name !in t.headers && name != []
    ensures WithColumn(t, name).Ok?
    ensures var r := WithColumn(t, name).value;
      && WellFormed(r)
      && r.headers == t.headers + [name]
      && |r.rows| == |t.rows|
      && (forall i, j :: 0 <= i < |t.rows| && 0 <= j < |t.headers| ==> r.rows[i][j] == t.rows[i][j])
      && (forall i :: 0 <= i < |t.rows| ==> r.rows[i][|t.headers|] == Text(""))
  {
  }

  /** A dataset with rows and headers refuses a column without a name, unless
      '' already is one of its headers. */
  lemma AddColumnNeedsHeader(t: TableValue)
    requires t.rows != [] && t.headers != []
    ensures WithColumn(t, "").Err? <==> "" !in t.headers
    ensures WithColumn(t, "").Err? ==> WithColumn(t, "").error == HeadersNeeded
  {
  }

  lemma AddColumnIdempotent(t: TableValue, name: string)
    ensures WithColumn(t, name).Ok? ==> WithColumn(WithColumn(t, name).value, name) == WithColumn(t, name)
  {
    if t.rows != [] && name !in ColumnsOf(t) && WithColumn(t, name).Ok? {
      var r := WithColumn(t, name).value;
      assert r.rows != [] && r.headers[|t.headers|] == name;
    }
  }

  // ---------------------------------------------------------------- save and load

  lemma NonEmptyPricesSurviveSheet(p: PriceTable)
    requires Consistent(p) && !IsEmpty(p)
    ensures !IsEmpty(FromSheet(ToSheet(p)))
  {
    var c :| c in p.data && p.data[c].values != [];
    assert c in p.columns;
    var k :| 0 <= k < |p.columns| && p.columns[k] == c;
    var s := ToSheet(p);
    assert |s.rows| >= |p.data[c].values| > 0;
    assert |s.headers| > 0;
    var q := FromSheet(s);
    assert |q.data[Text(s.headers[0])].values| == |s.rows|;
  }

  /** Loading what save wrote under an .xlsx name gives back the descriptive
      data, and prices exactly when there were prices: the sheet save made of
      them, read back as a frame. */
  lemma SaveLoadRoundTrip(path: string, equities: TableValue, prices: PriceTable)
    requires WellFormed(equities) && Consistent(prices)
    requires DetectFileFormat(path) == Ok(SAVED_FORMAT)
    ensures var loaded := LoadArchive(path, Archive(SAVED_FORMAT, ArchiveOf(equities, prices)));
      && loaded.Ok?
      && loaded.value.equities == equities
      && (IsEmpty(prices) ==> loaded.value.prices == NO_PRICES)
      && (!IsEmpty(prices) ==> loaded.value.prices == FromSheet(ToSheet(prices)))
      && (IsEmpty(loaded.value.prices) <==> IsEmpty(prices))
  {
    if !IsEmpty(prices) {
      NonEmptyPricesSurviveSheet(prices);
    }
  }

  /** With string labels, each once, the prices loaded back from an .xlsx save
      are the saved columns in their order, each padded to the longest. */
  lemma SaveLoadPricesRoundTrip(path: string, equities: TableValue, prices: PriceTable)
    requires WellFormed(equities) && Consistent(prices)
    requires Labelled(prices) && DistinctLabels(prices) && !IsEmpty(prices)
    requires DetectFileFormat(path) == Ok(SAVED_FORMAT)
    ensures var loaded := LoadArchive(path, Archive(SAVED_FORMAT, ArchiveOf(equities, prices)));
      loaded.Ok? && PaddedCopy(loaded.value.prices, prices)
  {
    FromSheetOfToSheet(prices);
  }

  /** What save wrote loads back exactly when the name it is loaded under says
      xlsx: under any other supported name the xlsx bytes fail to parse. */
  lemma SavedArchiveNeedsXlsxName(path: string, equities: TableValue, prices: PriceTable)
    requires WellFormed(equities) && Consistent(prices)
    requires DetectFileFormat(path).Ok?
    ensures var loaded := LoadArchive(path, Archive(SAVED_FORMAT, ArchiveOf(equities, prices)));
      && (loaded.Ok? <==> DetectFileFormat(path).value == "xlsx")
      && (loaded.Err? ==> loaded.error == ParseError(DetectFileFormat(path).value))
  {
  }

  /** Saving under a .json name and loading it back fails. */
  lemma SaveAsJsonDoesNotLoad(stem: string, equities: TableValue, prices: PriceTable)
    requires stem != [] && '/' !in stem
    requires WellFormed(equities) && Consistent(prices)
    ensures SaveTarget(Some(stem + ".json"), None) == Ok(stem + ".json")
    ensures LoadArchive(stem + ".json", Archive(SAVED_FORMAT, ArchiveOf(equities, prices))) == Err(ParseError("json"))
  {
    DetectFileFormatOfJoin("", stem, "json");
    assert "" + stem == stem;
    assert stem + "." + "json" == stem + ".json";
  }

  /** save checks no format and writes wherever it is told; load then refuses
      a name outside the whitelist. */
  lemma SaveIgnoresFormat(stem: string, stored: Option<string>)
    requires stem != [] && '/' !in stem
    ensures SaveTarget(Some(stem + "." + "csv"), stored) == Ok(stem + "." + "csv")
    ensures DetectFileFormat(stem + "." + "csv") == Err(UnsupportedFormat)
  {
    DetectFileFormatOfJoin("", stem, "csv");
    assert "" + stem == stem;
  }

  // ---------------------------------------------------------------- scenarios

  const STOCK_COLUMNS: seq<string> := ["Ticker", "Company", "Sector", "Industry", "Market Cap", "P/E"]

  const JKHY_ROW: seq<Cell> := [Text("JKHY"), Text("Jack Henry & Associates, Inc."), Text("Technology"),
                                Text("Business Software & Services"), Text("9502.72"), Text("38.81")]
  const SNA_ROW: seq<Cell> := [Text("SNA"), Text("Snap-on Incorporated"), Text("Industrial Goods"),
                               Text("Small Tools & Accessories"), Text("9507.61"), Text("17.25")]
  const DRE_ROW: seq<Cell> := [Text("DRE"), Text("Duke Realty Corporation"), Text("Financial"),
                               Text("REIT - Industrial"), Text("9508.24"), Text("35.95")]

  /** The parsed contents of the tests' stocks.csv. */
  const STOCKS: TableValue := TableValue(STOCK_COLUMNS, [JKHY_ROW, SNA_ROW, DRE_ROW])

  const FAKE_PRICES: Series := Series([Text("164.29"), Text("167.07"), Text("166.63")])

  function FakeHelper(ticker: Cell, existing: Series, period: int): Series
  {
    FAKE_PRICES
  }

  /** stocks.csv imports with its 'Ticker' column. */
  lemma StocksResolve()
    ensures ColumnsOf(STOCKS) == STOCK_COLUMNS
    ensures ResolveIdColumn(ColumnsOf(STOCKS), None, DEFAULT_ID_COLUMN) == Ok(DEFAULT_ID_COLUMN)
    ensures ResolveIdColumn(ColumnsOf(STOCKS), Some("Non existent column"), DEFAULT_ID_COLUMN).Err?
  {
    assert STOCK_COLUMNS[0] == DEFAULT_ID_COLUMN;
  }

  lemma StocksTickers()
    ensures WellFormed(STOCKS)
    ensures TickersOf(STOCKS, DEFAULT_ID_COLUMN) == Ok([Text("JKHY"), Text("SNA"), Text("DRE")])
  {
    assert STOCK_COLUMNS[0] == DEFAULT_ID_COLUMN;
    assert IndexOf(STOCK_COLUMNS, DEFAULT_ID_COLUMN) == 0;
    assert DEFAULT_ID_COLUMN in STOCKS.headers;
    var r := TickersOf(STOCKS, DEFAULT_ID_COLUMN);
    assert r.Ok? && |r.value| == 3;
    assert r.value[0] == STOCKS.rows[0][0] == Text("JKHY");
    assert r.value[1] == STOCKS.rows[1][0] == Text("SNA");
    assert r.value[2] == STOCKS.rows[2][0] == Text("DRE");
    var expected := [Text("JKHY"), Text("SNA"), Text("DRE")];
    assert forall i :: 0 <= i < 3 ==> r.value[i] == expected[i];
    assert r.value == expected;
  }

  lemma StocksColumnsDistinct()
    ensures forall j :: 0 <= j < |STOCK_COLUMNS| ==> LastOccurrence(STOCK_COLUMNS, j)
  {
    forall j | 0 <= j < |STOCK_COLUMNS| ensures LastOccurrence(STOCK_COLUMNS, j) {
      forall k | j < k < |STOCK_COLUMNS| ensures STOCK_COLUMNS[k] != STOCK_COLUMNS[j] {
        assert STOCK_COLUMNS[k][0] != STOCK_COLUMNS[j][0] || |STOCK_COLUMNS[k]| != |STOCK_COLUMNS[j]|;
      }
    }
  }

  /** equity('DRE') is DRE's row under the headers. */
  lemma StocksEquityDre()
    ensures WellFormed(STOCKS)
    ensures EquityOf(STOCKS, DEFAULT_ID_COLUMN, "DRE").Ok?
    ensures forall j :: 0 <= j < |STOCK_COLUMNS| ==>
      STOCK_COLUMNS[j] in EquityOf(STOCKS, DEFAULT_ID_COLUMN, "DRE").value &&
      EquityOf(STOCKS, DEFAULT_ID_COLUMN, "DRE").value[STOCK_COLUMNS[j]] == DRE_ROW[j]
  {
    assert STOCK_COLUMNS[0] == DEFAULT_ID_COLUMN;
    assert IndexOf(STOCK_COLUMNS, DEFAULT_ID_COLUMN) == 0;
    assert STOCKS.rows[2][0] == Text("DRE");
    assert STOCKS.rows[0][0].text[0] != 'D' && STOCKS.rows[1][0].text[0] != 'D';
    EquityFirstMatch(STOCKS, DEFAULT_ID_COLUMN, "DRE", 2);
    StocksColumnsDistinct();
    DreRowHasNoNone();
  }

  lemma DreRowHasNoNone()
    ensures forall j :: 0 <= j < |DRE_ROW| ==> NoneForText(DRE_ROW[j]) == DRE_ROW[j]
  {
    forall j | 0 <= j < |DRE_ROW| ensures NoneForText(DRE_ROW[j]) == DRE_ROW[j] {
      assert DRE_ROW[j].text[0] != 'N' || |DRE_ROW[j].text| != 4;
    }
  }

  /** equity('NONE') is {}, since no row holds that ticker. */
  lemma StocksEquityMissing()
    ensures WellFormed(STOCKS)
    ensures EquityOf(STOCKS, DEFAULT_ID_COLUMN, "NONE") == Ok(map[])
  {
    assert STOCK_COLUMNS[0] == DEFAULT_ID_COLUMN;
    assert IndexOf(STOCK_COLUMNS, DEFAULT_ID_COLUMN) == 0;
    forall i | 0 <= i < 3 ensures STOCKS.rows[i][0] != Text("NONE") {
      assert STOCKS.rows[i][0].text[0] != 'N';
    }
    EquityOfMissingTicker(STOCKS, DEFAULT_ID_COLUMN, "NONE");
  }

  /** A universe created without a file has no name, no rows and no prices,
      and cannot be saved without one. */
  method FreshUniverseScenario() returns (filename: Option<string>, columns: seq<string>, noPrices: bool,
                                          saved: Result<Written>)
    ensures filename == None && columns == [] && noPrices
    ensures saved == Err(UniverseFilenameNotSet)
  {
    var u := new Universe.Init(None, FakeHelper, DEFAULT_PRICES_YR_PERIOD);
    filename, columns, noPrices := u.filename, u.Columns(), IsEmpty(u.prices);
    saved := u.Save(None);
  }

  /** Importing stocks.csv: its columns, its tickers, DRE's row, and {} for a
      ticker it does not hold. */
  method ImportCsvScenario() returns (columns: seq<string>, tickers: Result<seq<Cell>>,
                                      dre: Result<map<string, Cell>>, missing: Result<map<string, Cell>>)
    ensures columns == STOCK_COLUMNS
    ensures tickers == Ok([Text("JKHY"), Text("SNA"), Text("DRE")])
    ensures dre.Ok? && forall j :: 0 <= j < |STOCK_COLUMNS| ==>
      STOCK_COLUMNS[j] in dre.value && dre.value[STOCK_COLUMNS[j]] == DRE_ROW[j]
    ensures missing == Ok(map[])
  {
    StocksResolve();
    StocksTickers();
    StocksEquityDre();
    StocksEquityMissing();
    var u := new Universe.Init(None, FakeHelper, DEFAULT_PRICES_YR_PERIOD);
    var imported := u.ImportFile(STOCKS, None);
    columns, tickers := u.Columns(), u.Tickers();
    dre, missing := u.Equity("DRE"), u.Equity("NONE");
  }

  /** An explicit identifier column that the file lacks is refused; the
      dataset keeps the file's data, but the identifier column stays. */
  method FailedImportScenario() returns (refused: Outcome, columns: seq<string>, tickers: Result<seq<Cell>>,
                                         fellBack: Outcome, idColumn: string)
    ensures refused.Fail? && refused.error.IdColumnError?
    ensures columns == ["Symbol", "Name"]
    ensures tickers == Err(KeyError(Text(DEFAULT_ID_COLUMN)))
    ensures fellBack == Pass && idColumn == "ticker"
  {
    StocksResolve();
    var u := new Universe.Init(None, FakeHelper, DEFAULT_PRICES_YR_PERIOD);
    var imported := u.ImportFile(STOCKS, None);
    var other := TableValue(["Symbol", "Name"], [[Text("X"), Text("Y")]]);
    refused := u.ImportFile(other, Some("Non existent column"));
    assert DEFAULT_ID_COLUMN !in other.headers;
    columns, tickers := u.Columns(), u.Tickers();
    assert Lower(DEFAULT_ID_COLUMN) == "ticker";
    var lowerCase := TableValue(["ticker", "Name"], [[Text("X"), Text("Y")]]);
    assert DEFAULT_ID_COLUMN !in lowerCase.headers;
    fellBack := u.ImportFile(lowerCase, None);
    idColumn := u.idColumnName;
  }

  const FETCH_CALLS: seq<Call> :=
    [Call(Text("JKHY"), EMPTY_SERIES, 5), Call(Text("SNA"), EMPTY_SERIES, 5), Call(Text("DRE"), EMPTY_SERIES, 5)]

  /** Against a frame without prices, the calls for the three tickers pass an
      empty series and the period. */
  lemma CallsOnEmptyFrame(calls: seq<Call>, ts: seq<Cell>)
    requires ts == [Text("JKHY"), Text("SNA"), Text("DRE")] && |calls| == |ts|
    requires forall k :: 0 <= k < |calls| ==> CallFor(calls[k], NO_PRICES, ts[k], DEFAULT_PRICES_YR_PERIOD)
    ensures calls == FETCH_CALLS
  {
    assert calls[0] == FETCH_CALLS[0] && calls[1] == FETCH_CALLS[1] && calls[2] == FETCH_CALLS[2];
  }

  /** A fresh universe holding stocks.csv, as the tests' fixture builds it. */
  method StocksUniverse() returns (u: Universe)
    ensures fresh(u) && u.Valid()
    ensures u.Tickers() == Ok([Text("JKHY"), Text("SNA"), Text("DRE")])
    ensures u.prices == NO_PRICES && u.filename == None
    ensures u.pricesHelper == FakeHelper && u.pricesYrPeriod == DEFAULT_PRICES_YR_PERIOD
  {
    StocksResolve();
    StocksTickers();
    u := new Universe.Init(None, FakeHelper, DEFAULT_PRICES_YR_PERIOD);
    var imported := u.ImportFile(STOCKS, None);
  }

  /** fetch_prices on a universe without prices calls the helper once per
      ticker, in order, with an empty series and period 5, and keeps its
      answers. */
  method FetchScenario() returns (u: Universe, fetched: Outcome, calls: seq<Call>)
    ensures fresh(u) && u.Valid() && u.filename == None
    ensures fetched == Pass
    ensures calls == FETCH_CALLS
    ensures Text("DRE") in u.prices.data && u.prices.data[Text("DRE")] == FAKE_PRICES
  {
    u := StocksUniverse();
    ghost var ts := u.Tickers().value;
    calls, fetched := u.FetchPrices();
    assert fetched.Pass?;
    CallsOnEmptyFrame(calls, ts);
  }

  /** After fetching, save writes both sheets to the name it is given. */
  method SaveAfterFetchScenario() returns (book: Result<Written>)
    ensures book.Ok? && book.value.path == "universe.xlsx" && |book.value.contents.sheets| == 2
  {
    var u, fetched, calls := FetchScenario();
    assert u.prices.data[Text("DRE")].values != [];
    book := u.Save(Some("universe.xlsx"));
  }
}
