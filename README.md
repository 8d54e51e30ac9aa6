# A verified model of the equities `Universe`

`equities/universe.py` defines `Universe`, a container for a group of equities. It holds:

- a descriptive dataset: a tablib table of headers and rows, one column of which identifies each equity (by default `Ticker`);
- a price frame: a pandas frame with one series per ticker;
- the name of the file the universe lives in;
- an injected helper that fetches prices.

This project models the container in Dafny and proves what its operations promise.

- **Tables.** The dataset. `Cell` is a string or Python's `None`. `TableValue` is headers plus rows, and `WellFormed` says every row is as wide as the header row. `Table` is the heap object that tablib changes in place.
- **Prices.** A price frame is a list of column labels and a map from each label to a `Series`. From a `Series` the model keeps only its sequence of values. The module also holds the conversion to and from a price sheet.
- **Paths.** The part of `pathlib` that computes a file name's suffix.
- **Errors.** The exceptions (`IdColumnError`, `UnsupportedFormat`, `UniverseFilenameNotSet`), and the library errors the code lets through (`KeyError`, `IndexError`, `ValueError`, a parse failure, and tablib's `HeadersNeeded`). This module also holds `Result`, `Outcome`, `Option`, and Python's truth test on an optional string.
- **Equities.** Each rule of `universe.py` is a function on values:
  - format detection;
  - resolving the identifier column;
  - `columns`, `tickers`, `__len__` and `equity`;
  - `add_column`;
  - the save target and the sheets written;
  - the sheets loaded;
  - the price-fetching loop, `CollectPrices`, a method with loop invariants.

  The class `Universe` applies these rules to its fields. Its methods `ImportFile`, `Save`, `Load`, `FetchPrices` and `AddColumn` change state, and their contracts tie the new state to those functions.
- **UniverseProperties.** Lemmas relating the operations, and scenarios built on the tests' fixture data (`stocks.csv` with JKHY, SNA and DRE).

Reading a file, and parsing CSV, JSON or XLSX, are outside the model. `ImportFile` receives the parsed table. `Load` and `Create` receive an `Archive`: the format the file's bytes are in, and the sheets they hold. `Save` returns the path it would write to and the `Archive` it would write there, whose format is always `xlsx` (line 118 writes `book.xlsx` whatever the name says).

The model follows two behaviours of the code exactly:

- **The rollback in `import_file` does not restore anything.** The method keeps a reference to the dataset (line 46). It then calls `load` on that same object, which replaces its contents in place (line 47). The "restore" on failure (lines 54 and 66) puts back the same reloaded object.

  The model keeps the dataset as a heap object. `Equities.Universe.ImportFile` ensures two things, whether the import succeeds or fails:
  - the `equities` reference is unchanged;
  - the dataset holds the newly parsed data.

  Only the identifier column name is kept on failure. `UniverseProperties.FailedImportScenario` shows a refused import: afterwards the columns are those of the refused file, and `tickers` raises `KeyError`.
- **A missing ticker gives `{}`.** `equity` returns `{}` when no row holds the symbol (lines 96-97), and the model does the same.

  `tests/test_universe.py:72` expects `equities.universe.TickerSymbolNotFound` instead. The module never defines that exception (lines 173-182), so that expectation does not match the code. The test's own docstring asks for an empty dict, which is what the code does and what `UniverseProperties.EquityOfMissingTicker` and `UniverseProperties.StocksEquityMissing` prove.

Other behaviours of the code that the model keeps:

- **`None` and `''` are treated alike.** Truth tests on names (lines 29, 50, 106 and 108) treat `''` like `None`.
- **`columns` hides the headers of an empty dataset.** It returns `[]` when the dataset has headers but no rows, so an import of such a file always fails.
- **The lower-case fallback sticks.** After switching to `ticker`, a later file with `Ticker` is refused.
- **`load` does not update `filename`**, and `save` does not check the extension.
- **`load` checks the format before anything else.** An unsupported name changes nothing. Bytes in another format than the name's fail to parse, and change nothing either (line 125 raises before line 126). An archive with no sheets fails with `IndexError` after `_universe_file` has been set.
- **Only an `.xlsx` save loads back.** `save` writes xlsx bytes under any name, and `load` parses them in the format the extension names, so a universe saved as `.json` cannot be loaded.
- **`fetch_prices` can fail in three ways, and each leaves the frame unchanged:**
  - before any call, `tickers` raises `KeyError` when the dataset has rows but no identifier column (line 145, via line 86), as after a refused import;
  - it stops with `KeyError` at the first ticker that a non-empty frame has no column for;
  - with no tickers at all it fails with `ValueError`, because `pd.concat` refuses an empty list.

## Model

| member | source | states |
|---|---|---|
| Equities.DetectFileFormat | equities/universe.py:165-170 | accepted exactly when the extension (suffix without its dot) is `xlsx` or `json`; the result is that extension, the suffix minus its dot; otherwise `UnsupportedFormat` |
| Equities.Extension | equities/universe.py:167 | `suffix.lstrip('.')` holds no separator and does not start with a dot; `ExtensionIsSuffixTail` pins it to the suffix minus its dot |
| Equities.ExtensionIsSuffixTail | equities/universe.py:167 | `lstrip('.')` on a suffix removes exactly its one leading dot |
| Paths.StripTrailingSeparators | equities/universe.py:167 | the normalised path is empty or does not end in a separator |
| Paths.StripTrailingSeparatorsRemovesRun | equities/universe.py:167 | the normalised path is a prefix of the path, and everything after it is separators |
| Paths.Name | equities/universe.py:167 | `PurePath.name` holds no separator; `NameOfJoin` pins it to the final component of `dir/stem.ext` |
| Paths.LastComponent | equities/universe.py:167 | the final component holds no separator |
| Paths.RFind | equities/universe.py:167 | the index found is the last occurrence of the character, or -1 when there is none |
| Paths.ComponentSuffix | equities/universe.py:167 | a nonempty suffix starts with its only dot and has at least one character after it |
| Paths.ComponentSuffixIsTail | equities/universe.py:167 | a nonempty suffix is a proper tail of the final component |
| Paths.Suffix | equities/universe.py:167 | a path's suffix holds no separator |
| Paths.LStrip | equities/universe.py:167 | the result does not start with the stripped character |
| Paths.LStripRemovesRun | equities/universe.py:167 | the result is a suffix of the string, and everything before it is the stripped character |
| Paths.LastComponentOfJoin | equities/universe.py:167 | the final component of a directory joined with a name is that name |
| Paths.RFindBeforeTail | equities/universe.py:167 | the last dot of `x + "." + y`, where `y` holds no dot, is at position `len(x)` |
| Paths.NameOfJoin | equities/universe.py:167 | the name of `dir/stem.ext` is `stem.ext` |
| Paths.ComponentSuffixOfJoin | equities/universe.py:167 | the suffix of `stem.ext`, with a nonempty stem and a dot-free extension, is `.ext` |
| Paths.SuffixOfJoin | equities/universe.py:167 | `Path('dir/stem.ext').suffix.lstrip('.')` is `ext` |
| UniverseProperties.DetectFileFormatOfJoin | equities/universe.py:165-170 | `dir/stem.ext` is accepted exactly when `ext` is on the whitelist, and yields `ext` |
| UniverseProperties.DetectFileFormatShape | equities/universe.py:165-170 | an accepted name's final component ends in a dot and the format, with something before the dot |
| UniverseProperties.DetectFileFormatWithoutDot | equities/universe.py:165-170 | a name without a dot is refused with `UnsupportedFormat` |
| UniverseProperties.DetectFileFormatHidden | equities/universe.py:165-170 | a hidden file such as `.xlsx`, whose only dot comes first, has no suffix and is refused |
| UniverseProperties.DetectFileFormatExtensions | equities/universe.py:16 | of `stem.xlsx`, `stem.json`, `stem.XLSX` and `stem.csv` (a format import_file reads), exactly the first two are accepted, each with its own extension |
| Equities.Lower | equities/universe.py:62 | each character is lower-cased, and the length is kept |
| Equities.ResolveIdColumn | equities/universe.py:49-70 | an explicit name is used exactly when it is a column, and otherwise gives `IdColumnError`; without one, the current name is kept if it is a column, else its lower-case form is used if that is a column, else `IdColumnError`; a resolved name is always a column |
| Equities.ColumnsOf | equities/universe.py:72-78 | `[]` while the dataset has no rows, the headers in order otherwise |
| Equities.TickersOf | equities/universe.py:80-86 | `[]` without rows; otherwise the identifier column's cells in row order (one per row), or `KeyError` exactly when the column is missing |
| Equities.LenOf | equities/universe.py:40-42 | `len(universe)` is the number of tickers, which is the number of rows, and fails exactly when `tickers` does |
| Equities.Normalised | equities/universe.py:98-100 | every `'None'` string becomes None, and every other cell stays |
| Equities.Zip | equities/universe.py:102 | `dict(zip(keys, values))`, characterised by `ZipKeys` (exactly the given keys) and `ZipValues` (each key maps to the value at its last occurrence) |
| Equities.ZipKeys | equities/universe.py:102 | `dict(zip(keys, values))` has exactly the given keys |
| Equities.ZipValues | equities/universe.py:102 | a key maps to the value at its last occurrence |
| Equities.EquityOf | equities/universe.py:88-102 | `{}` without rows; `KeyError` exactly when the identifier column is missing; otherwise `{}` exactly when no row holds the symbol |
| UniverseProperties.EquityFirstMatch | equities/universe.py:93-102 | for the first row holding the symbol, the result has exactly the headers as keys, and each header maps to that row's cell with `'None'` read as None |
| UniverseProperties.EquityOfMissingTicker | equities/universe.py:93-97 | a symbol no row holds gives `{}`, not an exception |
| Equities.Dedup | equities/universe.py:144-153 | the keys of the dict filled in ticker order: exactly the tickers, each once |
| Equities.DedupFirstOccurrenceOrder | equities/universe.py:144-153 | the dict's keys come in the order of each ticker's first occurrence |
| Equities.InFirstOccurrenceOrderAppend | equities/universe.py:150 | appending a ticker keeps the first-occurrence order of the keys already present, and a new ticker goes last in it |
| Tables.IndexOfAppend | equities/universe.py:150 | appending to a list does not move the first occurrence of anything it held, and a new element's first occurrence is at the end |
| Equities.Existing | equities/universe.py:146-149 | the series handed to the helper, characterised by `ExistingSeries` |
| Equities.ExistingSeries | equities/universe.py:146-149 | `Existing` hands the helper an empty series exactly while the frame is empty, else the frame's column for the ticker, and gives `KeyError` exactly when a non-empty frame has no such column |
| Equities.HelperResultsUpdate | equities/universe.py:150-151 | storing the helper's answer for a ticker keeps every stored series the helper's answer for its ticker |
| Equities.CollectPrices | equities/universe.py:144-151 | one helper call per ticker, in order, each with that ticker, the series the frame holds for it (empty while the frame is empty), and the period; on success, every ticker is a key and every kept series is the helper's answer for its ticker; otherwise it stops at the first ticker a non-empty frame lacks, with that `KeyError` |
| Equities.SaveTarget | equities/universe.py:106-109 | `UniverseFilenameNotSet` exactly when neither the argument nor the stored name is truthy; a truthy argument wins over the stored name |
| Equities.ArchiveOf | equities/universe.py:111-115 | sheet 0 is the dataset; a second sheet, the price sheet, exists exactly when the frame is not empty |
| Equities.LoadArchive | equities/universe.py:120-140 | an unsupported name fails first; bytes in another format than the name's give a parse error; an empty book gives `IndexError`; it succeeds exactly when the name's format is the bytes' and there is a sheet; then sheet 0 is the dataset, and the prices come from sheet 1 if there is one, else are empty |
| UniverseProperties.NonEmptyPricesSurviveSheet | equities/universe.py:113-115 | a non-empty frame written as a sheet reads back as a non-empty frame |
| UniverseProperties.SaveLoadRoundTrip | equities/universe.py:111-140 | loading what save writes under an `.xlsx` name gives back the dataset, and a non-empty frame exactly when there were prices, which is the saved sheet read back |
| UniverseProperties.SaveLoadPricesRoundTrip | equities/universe.py:111-140 | with string labels, each once, the prices loaded back from an `.xlsx` save have the saved column labels in order, each column padded with None to the longest |
| UniverseProperties.SavedArchiveNeedsXlsxName | equities/universe.py:117-125 | under a supported name, what save wrote loads exactly when the name says `xlsx`, and otherwise fails to parse in the name's format |
| UniverseProperties.SaveAsJsonDoesNotLoad | equities/universe.py:104-125 | save writes to `stem.json` when told to, and loading that file fails to parse it as JSON |
| UniverseProperties.SaveIgnoresFormat | equities/universe.py:104-119 | save writes to `stem.csv` when told to, although load refuses that name |
| Equities.Universe.Columns | equities/universe.py:72-78 | the `columns` property: `[]` while the dataset has no rows, its headers otherwise |
| Equities.Universe.Tickers | equities/universe.py:80-86 | the `tickers` property: `[]` without rows; with rows, `KeyError` exactly when the identifier column is missing; one ticker per row |
| Equities.Universe.Len | equities/universe.py:40-42 | `len(universe)` fails exactly when `tickers` does, and is otherwise the row count |
| Equities.Universe.Equity | equities/universe.py:88-102 | `equity(symbol)`: `{}` without rows; with rows, `KeyError` exactly when the identifier column is missing |
| Equities.Universe.Init | equities/universe.py:25-38 | for a name that is not truthy, the branch of `__init__` that loads nothing: identifier `Ticker`, the given name, helper and period, no archive, an empty dataset and an empty frame |
| Equities.Universe.Create | equities/universe.py:18-38 | without a truthy name, an empty universe; with one, it succeeds exactly when load does, holding the loaded sheets; the helper is the given one or the downloader |
| Equities.Universe.ImportFile | equities/universe.py:44-70 | the same dataset object is reloaded with the parsed data, whether the import succeeds or fails; the outcome and the new identifier column follow `ResolveIdColumn`; on failure the identifier column is unchanged |
| UniverseProperties.ImportedColumnsAreHeaders | equities/universe.py:49-78 | a successful import had rows, and its columns are the parsed header row |
| UniverseProperties.ImportWithoutRowsFails | equities/universe.py:49-78 | a file with headers but no rows never imports |
| UniverseProperties.FallbackIsOneWay | equities/universe.py:61-63 | after falling back to `ticker`, a later file whose column is `Ticker` is refused |
| Equities.Universe.Save | equities/universe.py:104-119 | without a target it fails, and nothing changes; otherwise it stores the target as the filename and writes `ArchiveOf` the dataset and prices to it, in xlsx whatever the name |
| Equities.Universe.Load | equities/universe.py:120-140 | an unsupported name, or bytes in another format, change nothing; otherwise the archive is kept, and the dataset and prices become what `LoadArchive` yields (a fresh dataset object), or stay as they were when the book is empty; the filename is not touched |
| Equities.Universe.FetchPrices | equities/universe.py:142-156 | one helper call per ticker, in ticker order, with the configured period and the series already held; on success, the frame is replaced by one that has a column per distinct ticker, in order, each holding the helper's answer; a missing column, or no tickers at all, fails and leaves the frame unchanged |
| Equities.WithColumn | equities/universe.py:158-163 | `HeadersNeeded` exactly when a dataset with rows and headers gets the new name `''`; otherwise the rows keep their number, the old headers lead, and with rows the name is a column afterwards; `AddColumnNoOp`, `AddColumnAppends`, `AddColumnNeedsHeader` and `AddColumnIdempotent` characterise it fully |
| Equities.Universe.AddColumn | equities/universe.py:158-163 | the dataset becomes what `WithColumn` gives for its old value; when that is `HeadersNeeded`, it fails and the dataset is unchanged |
| UniverseProperties.AddColumnNoOp | equities/universe.py:160-161 | without rows, or when the name is already a header, nothing changes |
| UniverseProperties.AddColumnAppends | equities/universe.py:162-163 | otherwise a non-empty name becomes the last header, each row gets `''` under it, the row count is unchanged, and every other cell stays where it was |
| UniverseProperties.AddColumnNeedsHeader | equities/universe.py:163 | a dataset with rows and headers refuses the name `''` with `HeadersNeeded`, exactly when `''` is not already a header |
| UniverseProperties.AddColumnIdempotent | equities/universe.py:158-163 | adding the same column twice is the same as adding it once |
| Tables.IndexOf | equities/universe.py:95 | `list.index`: the position of the first occurrence |
| Tables.ColumnAt | equities/universe.py:86 | `dataset[name]`: the cells of one column, one per row, in row order |
| Tables.Table.constructor | equities/universe.py:127 | a dataset object holding the given contents |
| Tables.Table.Load | equities/universe.py:47 | `Dataset.load` replaces the contents of the same object |
| Tables.Table.AppendColumn | equities/universe.py:163 | `append_col`: a dataset with headers refuses an empty header and is then unchanged; otherwise the header goes last, and each row gains its cell at the end |
| Prices.Labels | equities/universe.py:130 | a sheet's header row gives the frame's column labels, in order |
| Prices.FromSheet | equities/universe.py:130 | the frame of a price sheet has a label per header and a consistent map; each column has one value per row, and the first column under a header is that header's series |
| Prices.IsEmpty | equities/universe.py:113 | `DataFrame.empty`, characterised by `EmptyIffNoRows` |
| Prices.EmptyIffNoRows | equities/universe.py:113 | a consistent frame is empty exactly when it has no rows |
| Prices.Height | equities/universe.py:114 | the frame's row count is the length of its longest series |
| Prices.ToSheet | equities/universe.py:114 | the sheet a frame is saved as is rectangular, with one header per column, the column's label as its text, and one row per observation whose cells are the series' values, None past a series' end |
| Prices.Padded | equities/universe.py:114 | a series padded to a length keeps its values and is None past its end; padding a series to its own length changes nothing |
| Prices.SheetLabels | equities/universe.py:114-130 | the labels read back from a saved sheet are the frame's string labels, in order |
| Prices.SheetHeadersDistinct | equities/universe.py:114-130 | with distinct labels, each header of the saved sheet first occurs at its own column |
| Prices.SheetColumn | equities/universe.py:114-130 | each column read back from a saved sheet is the frame's series for that label, padded to the frame's height |
| Prices.FromSheetOfToSheet | equities/universe.py:114-130 | a frame with distinct string labels written as a sheet and read back has the same labels in order, each series padded to the longest |
| UniverseProperties.StocksResolve | tests/test_universe.py:27-40 | the fixture imports with its `Ticker` column, keeps its six columns, and refuses `Non existent column` |
| UniverseProperties.StocksTickers | tests/test_universe.py:51-56 | the fixture's tickers are JKHY, SNA and DRE, in that order |
| UniverseProperties.StocksColumnsDistinct | tests/conftest.py:38-41 | the fixture's column names are distinct |
| UniverseProperties.DreRowHasNoNone | tests/conftest.py:12-13 | no DRE cell is the string `'None'` |
| UniverseProperties.StocksEquityDre | tests/test_universe.py:59-64 | `equity('DRE')` maps each column name to DRE's cell |
| UniverseProperties.StocksEquityMissing | tests/test_universe.py:67-73 | `equity('NONE')` is `{}` |
| UniverseProperties.FreshUniverseScenario | tests/test_universe.py:11-15 | a fresh universe has no name, no columns and no prices, and saving it fails with `UniverseFilenameNotSet` |
| UniverseProperties.ImportCsvScenario | tests/test_universe.py:27-73 | after importing the fixture: its columns, its tickers, DRE's data and `{}` for `NONE` |
| UniverseProperties.FailedImportScenario | tests/test_universe.py:35-40 | a refused import raises `IdColumnError`, leaves the refused file's columns in the dataset, and keeps the identifier column; a later lower-case file falls back to `ticker` |
| UniverseProperties.StocksUniverse | tests/test_universe.py:53-54 | a fresh universe that has imported the fixture holds its three tickers and no prices |
| UniverseProperties.CallsOnEmptyFrame | tests/test_universe.py:147-159 | against an empty frame, the three calls pass each ticker, an empty series and the period 5 |
| UniverseProperties.FetchScenario | tests/test_universe.py:76-90 | fetching prices for the fixture succeeds with three calls in ticker order, and DRE's column is the helper's series |
| UniverseProperties.SaveAfterFetchScenario | tests/test_universe.py:103-115 | after fetching, `save('universe.xlsx')` writes two sheets to that name, in xlsx |

## Left out

- File I/O and the CSV, JSON and XLSX formats are left out. `open`, `read`, `write`, `Dataset.load` format detection, `Databook.load` and `book.xlsx` are foreign libraries and I/O. The parsed table or the list of sheets is an input, and `Save` returns what it would write. `UniverseProperties.SaveLoadRoundTrip` therefore assumes that the xlsx writer and reader give back the sheets unchanged, every cell included (the `''` cells `add_column` writes, for one).
- `Equities.Universe.Load`: `universeFile` keeps a copy of the loaded sheets. In the code `self.equities` is the book's own first sheet (lines 126-127), so a later `import_file` or `add_column` also changes `_universe_file`; that alias is not kept. The field is read only at line 128, right after it is set.
- `equities/utils.py` is not part of this model. The default price downloader reads the network and the clock, so `Create` takes it as a parameter.
- The helper is a pure function of its three arguments. A helper that raises, or that has side effects, is not modelled.
- Price values are strings and series are sequences of values. Floats, dates, the `name` of a series, and `pd.concat` aligning series on the union of their dates are pandas internals. Also left out: the `DatetimeIndex` coercion after fetching (lines 155-156), and the one after loading, whose `KeyError` is swallowed (lines 131-138).
- `ToSheet`: `to_csv` also writes the frame's index (the dates) as a first column, and the model leaves that column out. The price round trip is therefore stated for the columns alone: each comes back under its label, padded with None where pandas would align on dates.
- `FromSheet`: the model keeps the first column under a repeated header, and how tablib and pandas treat repeated headers is not modelled. It also reads every cell as a string, without pandas' type inference.
- `Equities.Lower`: it lower-cases ASCII letters only. Python's `str.lower` also maps non-ASCII letters, and Unicode case mapping is not modelled.
- `Paths.Suffix`: it models POSIX paths only, and treats `.` and `..` components like any other name. Windows separators and drive letters are not modelled.
- Datasets without headers are not modelled, and every `TableValue` has a header row. `tablib` lets a dataset without headers hold rows, and `columns` would then return `None`.
- Cells are strings or None. A JSON file that parses to numbers is not modelled, so `equity` compares the symbol with string cells only.
- `Equities.Universe.FetchPrices`: the new frame has one column per ticker, labelled by the ticker, and so does `Equities.CollectPrices`. In the code `pd.concat` labels each column by its series' `name` (line 153), and the helper chooses that name: the default downloader upper-cases the ticker (`equities/utils.py:25`), and the tests' helper names every series `ticker`. A helper whose series are not named after their tickers, and the `KeyError` a later fetch then raises, are not captured.
- `Tables.Table.AppendColumn`: tablib's `HeadersNeeded` for an empty header on a dataset with headers is modelled; on a dataset with rows but no headers tablib adds no header at all, and the model appends it anyway.
- `Equities.Dedup`: pandas can hold two columns with the same label, and a sheet may repeat a ticker. The frame is modelled as one series per distinct label.
- The private `_prices_index` attribute (line 27), always `'date'`, is not a field. It is used only in the swallowed date-index step.
- Concurrency and exceptions raised inside tablib or pandas, other than the `KeyError`, `IndexError` and `ValueError` modelled above, are not modelled.
