# Duplicate hex ids: detection and resolution, in Dafny

This project models the two scripts that clean duplicate cells out of a
national dataset keyed by h3 hex id.

- **`duplicate_finder.py`** does the detection:
  - it counts every `hex_id` in one forward pass (`get_hex_ids`);
  - it keeps the ids seen more than once, in first-seen order (`find_duplicates`);
  - it saves and reloads those `(id, count)` pairs as `id,count` lines (`write_pairs_csv`, `read_pairs_csv`);
  - it fetches the rows of those ids again in batches of 10000, one `WHERE hex_id IN ('…','…')` query per batch (`get_rows_by_hex_id`).
- **`duplicate_fixer.py`** does the resolution. For every group of rows sharing an id (`deduplicate`), it picks one row:
  - the first row by default;
  - replaced by a later row with a truthy `evi` and a strictly larger area.

  It then gives that row the cell's own polygon as its geometry. The helpers `append_polys`, `keep_only` and `cell_to_shapely` flatten geometry trees to their polygons and build the cell polygon with each `(lat, lng)` pair swapped.

Modules:

- `Wrappers` (`wrappers.dfy`): `Option` and `Result`.
- `PyInt` (`python_int.dfy`): Python's `str(int)` and `int(str)` as the two scripts use them:
  - `int()` strips tab, line feed, vertical tab, form feed, carriage return and space and accepts an optional sign and `_` between digits;
  - both directions refuse integers of more than 4300 digits.
- `CsvReader` (`csv_reader.dfy`): `csv.reader` with the default excel dialect, as a state machine over characters:
  - the text first goes through universal-newline translation;
  - quoted fields, the `field_size_limit` of 131072 and the end-of-file rules are modelled;
  - it yields the records read, then the error that stopped it, if any.
- `DuplicateFinder` (`duplicate_finder.dfy`):
  - The id→count dict is an `IdCount`: its keys in insertion order and the map.
  - `Tally(s)` is the dict that counting the stream `s` builds.
  - The database is a function from query text to an `Answer` (column names and records).
  - The IN-list and query text are modelled character for character. `ParseLiterals` reads an IN-list back the way SQL does.
- `DuplicateFixer` (`duplicate_fixer.dfy`):
  - Geometry is an inductive datatype.
  - `append_polys` works on a `PolygonList` object whose list it appends to in place.
  - Area, the EPSG:4326→EPSG:27700 projection and the h3 cell boundary are function parameters.
  - `evi` is `Null`, `NaN` or a number, with Python truthiness.

Behaviour of the code worth noting:

- `deduplicate` returns a one-row group untouched, with its stored geometry. Only groups of two or more rows get the cell polygon.
- An `evi` of `0` is skipped like a missing one, since `not 0` holds. A NaN `evi` is not skipped.
- `find_duplicates` keeps counts `> 1`, although its docstring says `> 0`.

## Model

| member | source | states |
|---|---|---|
| `DuplicateFinder.GetHexIds` | duplicate_finder.py:31-50 | the dict built by the loop is `Tally(records)` and the final `count` is the number of records read |
| `DuplicateFinder.Tally` | duplicate_finder.py:33-44 | the dict is well formed: each key listed once, and the listed keys are the mapped ones |
| `DuplicateFinder.TallyValid` | duplicate_finder.py:33-44 | the keys of the dict are exactly the ids that occur in the stream |
| `DuplicateFinder.TallyCounts` | duplicate_finder.py:41-44 | each id's count equals its number of occurrences; an absent id occurs nowhere |
| `DuplicateFinder.TallyPositive` | duplicate_finder.py:44 | every count in the dict is at least 1 |
| `DuplicateFinder.TallyTotal` | duplicate_finder.py:41-46 | the counts add up to the number of records read |
| `DuplicateFinder.TallyFirstSeenOrder` | duplicate_finder.py:33-44 | the dict's keys are ordered by the position of each id's first occurrence in the stream |
| `DuplicateFinder.FindDuplicates` | duplicate_finder.py:53-68 | the returned pairs are `DuplicatesOf` the dict's items in iteration order |
| `DuplicateFinder.DuplicatesMembers` | duplicate_finder.py:60-62 | `(id, c)` is returned if and only if the dict maps `id` to `c` and `c > 1` |
| `DuplicateFinder.DuplicatesOrdered` | duplicate_finder.py:60-62 | the returned pairs keep the dict's key order and so name no id twice |
| `DuplicateFinder.DuplicatesOfStream` | duplicate_finder.py:41-68 | after counting a stream, `(id, c)` is returned exactly when `id` occurs `c > 1` times, and the pairs are in first-occurrence order |
| `DuplicateFinder.TallyExample` | duplicate_finder.py:44 | counting `[A, A, B, A, C, C]` for distinct ids gives the dict `{A: 3, B: 1, C: 2}` in that key order |
| `DuplicateFinder.FirstSeenExample` | duplicate_finder.py:60-62 | filtering that dict gives `[(A, 3), (C, 2)]` |
| `DuplicateFinder.Encode` | duplicate_finder.py:73-74 | the written text is empty or ends with a newline |
| `DuplicateFinder.WritableCount` | duplicate_finder.py:73-74 | the number of lines written before the first count `str()` refuses |
| `DuplicateFinder.WritePairsCsv` | duplicate_finder.py:71-74 | the file receives one `id,count` line per pair, in order, up to the first count `str()` refuses; it fails exactly when some count is refused |
| `DuplicateFinder.Decode` | duplicate_finder.py:77-86 | what `read_pairs_csv` returns or raises: an error raised by the reader always makes it fail, and a success holds one pair per record read; `PairsOfRecords`, `PairOfFails` and `RoundTrip` state the rest |
| `DuplicateFinder.ReadPairsCsv` | duplicate_finder.py:77-86 | the loop returns `Decode(text)`: the pairs, or the error of the first record without two fields or an integer second field, or the CSV error that stopped the reader |
| `DuplicateFinder.PairsOfRecords` | duplicate_finder.py:81-84 | reading succeeds if and only if every record has two fields and an integer second field; then it yields `(row[0], int(row[1]))` per record, in order, ignoring further fields |
| `DuplicateFinder.PairOfFails` | duplicate_finder.py:82-83 | one record fails if and only if it has fewer than two fields (an `IndexError`) or its second field is not an integer |
| `DuplicateFinder.CollectAllOk` | duplicate_finder.py:81-84 | when every record converts, reading yields one converted record per record, in order |
| `DuplicateFinder.CollectSomeErr` | duplicate_finder.py:81-84 | one record that fails to convert makes the whole read fail |
| `DuplicateFinder.RoundTrip` | duplicate_finder.py:71-86 | reading back what was written yields the same pairs in the same order, when no id holds a comma or line break, starts with a quote or exceeds the reader's field size limit of 131072 characters, and every count can be written |
| `DuplicateFinder.EncodeFeeds` | duplicate_finder.py:73-81 | the written lines read back, through the CSV reader, as one `[id, str(count)]` record per pair and no error |
| `DuplicateFinder.RecordsRead` | duplicate_finder.py:82-84 | each `[id, str(count)]` record converts back to `(id, count)` |
| `DuplicateFinder.Batches` | duplicate_finder.py:99 | `itertools.batched(hex_ids, n)` gives the number of ids divided by `n`, rounded up, batches; `BatchesPartition` states how they cover the list |
| `DuplicateFinder.BatchesPartition` | duplicate_finder.py:99 | the batches concatenate back to the id list; each has between 1 and `n` ids; all but the last have exactly `n`; there are none exactly when the list is empty |
| `DuplicateFinder.InList` | duplicate_finder.py:101 | each id goes between single quotes and the ids are joined with `','`, with no escaping: the text starts and ends with a quote, and an empty batch gives `''`; `InListReadsBack` and `QuoteBreaksInList` give its meaning |
| `DuplicateFinder.Query` | duplicate_finder.py:102 | the query is `SELECT * FROM national_dataset WHERE hex_id IN (`, then the IN-list, then `)`; `InListReadsBack` gives what it selects |
| `DuplicateFinder.InListReadsBack` | duplicate_finder.py:101 | for ids without a single quote, SQL reads the IN-list back as exactly the batch |
| `DuplicateFinder.QuoteBreaksInList` | duplicate_finder.py:101 | an id containing a quote is not escaped: the IN-list for `a'b` does not read back as `a'b` |
| `DuplicateFinder.GetRowsByHexId` | duplicate_finder.py:89-118 | the rows are the records of every batch's query, batch after batch, in order; the column names come from the first batch's answer and stay `None` exactly when there are no ids |
| `DuplicateFinder.SelectCount` | duplicate_finder.py:102 | a table row is selected as often as the table holds it when its id is listed, and never otherwise |
| `DuplicateFinder.FetchedCount` | duplicate_finder.py:99-112 | over disjoint quote-free batches, each table row is fetched once per copy in the table if its id is in some batch, and never otherwise |
| `DuplicateFinder.RowsByHexIdComplete` | duplicate_finder.py:99-112 | for distinct quote-free ids and a database that answers the IN-queries, each row whose id is listed is fetched exactly as often as the table holds it, and no other row is fetched |
| `PyInt.Parse` | duplicate_finder.py:83 | `int()` on text: an accepted value is negative only when the stripped text starts with `-`, and such text never gives a positive value; `ParseFormat`, `ParseNeedsDigit` and `SeparatorRefused` state the rest |
| `PyInt.Digits` | duplicate_finder.py:74 | `str()` of a natural number is a non-empty run of digits with no leading zero |
| `PyInt.Format` | duplicate_finder.py:74 | `str()` of an integer is digits, led by `-` exactly for a negative number |
| `PyInt.DigitsValue` | duplicate_finder.py:74 | the digits written for `n` denote `n` |
| `PyInt.ParseFormat` | duplicate_finder.py:74-83 | `int(str(n)) == n` for every integer of at most 4300 digits |
| `PyInt.ParseNeedsDigit` | duplicate_finder.py:83 | `int()` refuses a text without a digit |
| `PyInt.StripLeft` | duplicate_finder.py:83 | the result is a suffix of the text that does not start with whitespace, and everything removed before it is whitespace |
| `PyInt.StripRight` | duplicate_finder.py:83 | the result is a prefix of the text that does not end with whitespace, and everything removed after it is whitespace |
| `PyInt.SeparatorRefused` | duplicate_finder.py:83 | `int()` does not strip the information separator U+001C, so it refuses that character followed by a digit |
| `CsvReader.Read` | duplicate_finder.py:79-81 | `csv.reader` over a file opened in text mode: no field it yields holds more than the 131072 characters of the field size limit; `RoundTrip`, `TwoFieldLine` and `BlankLine` state the rest |
| `CsvReader.FeedFits` | duplicate_finder.py:80-81 | whatever the reader is fed, every field it has built stays within the field size limit |
| `CsvReader.TranslateNewlines` | duplicate_finder.py:79 | after newline translation the text holds no carriage return |
| `CsvReader.TranslateWithoutCarriageReturn` | duplicate_finder.py:79 | text without a carriage return passes translation unchanged |
| `CsvReader.TranslateCrLf` | duplicate_finder.py:79 | the first `\r\n` in the text becomes one `\n`, and translation continues after it |
| `CsvReader.TranslateLoneCr` | duplicate_finder.py:79 | a first `\r` not followed by `\n` becomes `\n`, and translation continues after it |
| `CsvReader.FeedAppend` | duplicate_finder.py:80-81 | reading two pieces of input one after the other is reading their concatenation |
| `CsvReader.TokensAppend` | duplicate_finder.py:80-81 | text that ends a line can be read line by line |
| `CsvReader.PlainFieldRun` | duplicate_finder.py:80-81 | a field without commas, line breaks or a leading quote, of at most 131072 characters (the field size limit), at the start of a field, is read verbatim |
| `CsvReader.InFieldRun` | duplicate_finder.py:80-81 | inside an unquoted field, characters other than commas and line breaks are kept verbatim |
| `CsvReader.TwoFieldLine` | duplicate_finder.py:80-81 | the line `a,b` followed by a newline, with plain `a` and `b`, is read as the one record `[a, b]` |
| `CsvReader.BlankLine` | duplicate_finder.py:80-81 | an empty line is read as the empty record |
| `DuplicateFixer.Flatten` | duplicate_fixer.py:33-40 | everything collected from a geometry is a non-empty polygon |
| `DuplicateFixer.FlattenParts` | duplicate_fixer.py:33-40 | a polygon is collected if and only if it is a non-empty polygonal part of the geometry, reached only through multi-polygons and collections |
| `DuplicateFixer.AppendPolys` | duplicate_fixer.py:33-40 | the list is appended to and never changed otherwise: its old contents stay a prefix, followed by the geometry's polygons depth-first in member order |
| `DuplicateFixer.AppendMembers` | duplicate_fixer.py:38-40 | the members are appended one after another, in member order |
| `DuplicateFixer.KeepOnly` | duplicate_fixer.py:43-59 | the result is always a polygon or a multi-polygon |
| `DuplicateFixer.KeepOnlyCases` | duplicate_fixer.py:50-59 | a collection becomes the multi-polygon of exactly its non-empty polygonal parts; a polygon or multi-polygon is returned unchanged, even when empty; anything else becomes the empty polygon |
| `DuplicateFixer.KeepOnlyIdempotent` | duplicate_fixer.py:43-59 | applying `keep_only` twice is applying it once |
| `DuplicateFixer.Swapped` | duplicate_fixer.py:64 | each pair `(a, b)` becomes `(b, a)`, with count and order kept |
| `DuplicateFixer.SwappedTwice` | duplicate_fixer.py:64 | swapping twice gives back the boundary |
| `DuplicateFixer.CloseRing` | duplicate_fixer.py:65 | the ring keeps the boundary as its prefix, adds at most one point and ends where it starts; a boundary that is already closed is left as it is |
| `DuplicateFixer.CellToShapely` | duplicate_fixer.py:62-65 | the cell polygon has no holes, and its exterior is the boundary with each pair swapped, closed |
| `DuplicateFixer.ChoiceUnique` | duplicate_fixer.py:77-90 | at most one row is the largest-area candidate that comes first among equals |
| `DuplicateFixer.Deduplicate` | duplicate_fixer.py:68-96 | an empty group is an error; a single row is returned as it is; otherwise the result is the chosen row with only its geometry replaced by the projected cell polygon of the first row's id; the chosen row is the first row or one with a truthy `evi`, its area is at least that of every such candidate, and every earlier candidate's area is strictly smaller |
| `DuplicateFixer.NullFirstScenario` | duplicate_fixer.py:77-90 | rows `{evi: null, area: 50}` and `{evi: 0.7, area: 30}`: the first row is chosen |
| `DuplicateFixer.TieScenario` | duplicate_fixer.py:77-90 | rows with areas 10, 40, 40 and truthy `evi`: the second row wins the tie |
| `DuplicateFixer.ZeroEviScenario` | duplicate_fixer.py:83-85 | in the two-row group whose first row has `evi` 0.3 and area 10 and whose second has `evi` 0 and area 90, no row but the first can be chosen |

## Left out

- The two `main` functions and the `__main__` blocks are I/O plumbing and are not modelled. That covers the database connection, `.env` loading, argument parsing, logging setup, the gpkg and csv file names and `sys.exit`. The call `write_pairs_csv(hex_id_count.items())` at duplicate_finder.py:146 passes one argument to a two-argument function and would raise a `TypeError`.
- Progress logging is a side effect only and is not modelled.
- The server-side cursor and its `itersize` streaming are replaced by values. The stream `get_hex_ids` reads is a sequence of ids, and each query's answer is the value of a function of the query text.
- SQL itself is not modelled beyond reading the IN-list. Postgres gives no row order, so the reference database in `Serves` is only constrained up to a permutation of each answer.
- `DuplicateFinder.GetRowsByHexId`: the column names are the answer's `colnames`, standing for `[desc[0] for desc in cursor.description]`.
- `DuplicateFinder.GetRowsByHexId`: a query that fails at `cursor.execute` (duplicate_finder.py:104) aborts `get_rows_by_hex_id` in the source, for example with the syntax error an id holding `'` causes. `fetch` always answers, so that failure is not modelled, and `Serves` puts no constraint on the answer to such a query.
- WKB decoding and the GeoDataFrame build, rename, drop and write after the fetch are library calls and are not modelled. The pandas `groupby` that forms the groups handed to `deduplicate` is also left out.
- The h3 boundary, the pyproj transformer with `shapely.ops.transform`, and the floating-point `area` are function parameters. Area is an exact `real`, so NaN areas and rounding are not captured.
- `DuplicateFixer.CellToShapely`: shapely's rules for rings of fewer than four coordinates are not modelled; h3 boundaries have at least five vertices.
- Shapely's validity checks on polygons and multi-polygons are not modelled.
- `DuplicateFixer.Deduplicate`: rows are values, so the `copy()` before the geometry is replaced is implicit. An empty group, which `rows.iloc[0]` rejects with an `IndexError`, is `None`.
- `PyInt.Parse`: Unicode digits and Unicode whitespace, which Python's `int()` also accepts, are not modelled. Only ASCII digits and the six ASCII whitespace characters that `int()` strips (tab, line feed, vertical tab, form feed, carriage return, space) are.
- File encoding is not modelled. Text is a sequence of characters, and writing uses `\n` as the line ending, as on POSIX.
- The `csv` reader's dialect options other than the default excel dialect are not modelled.
