# MySQL storage-size estimator, modelled in Dafny

This project models the core of `ds`, a tool that reads MySQL DDL statements and estimates how many bytes
each column, key, table and database takes per row and per N rows. It also models the `HumanSize` formatter
that prints those byte counts with decimal units (B, KB, MB, GB, TB).

The model follows the Go packages `internal/mysql` and `pkg/ds`, file by file:

- `uint64.dfy` holds Go's `uint64`.
  - Sizes are pairs `Range(min, max)` of 64-bit values.
  - Every sum and product wraps modulo 2^64, as Go's do.
  - `Sum` is the left-to-right accumulation the source's loops perform.
- `datatypes.dfy`, `charsets.dfy` and `rowformats.dfy` hold three tables:
  - the per-type storage table (`DataType.Size` and its helpers);
  - the charset width table;
  - the row formats.
- `engines.dfy` holds the InnoDB and MyISAM rules:
  - key sizes;
  - row-format resolution;
  - row-size formulas.
- `columns.dfy`, `indexes.dfy`, `tables.dfy` and `databases.dfy` hold the schema objects, their sizes and the
  names the report shows.
  - A table under construction is the class `Tables.TableDraft`. `Analyze` and `addKey` update its fields in place.
- `storages.dfy` and `parser.dfy` hold how DDL builds the storage:
  - creating and dropping databases;
  - creating tables;
  - parsing the table options;
  - the statement loop of `Parse`, with its current database.
- `estimator.dfy` holds the estimator:
  - its options;
  - `Estimate`;
  - the rows `Run` assembles.
- `size.dfy` holds the formatter, both as written (`FormatAsWritten`) and corrected (`Format`, which the report uses; see Findings).
- `statements.dfy` stands for the statements the SQL parser delivers.
- `externals.dfy` gathers, as the parameter `Env`, the functions the core calls but does not define.
- `dataitems.dfy` is the `ds.Data` interface: a name, a kind and a size.
- `errors.dfy` holds the error kinds.
- `strings.dfy` holds ASCII case mapping and splitting.

Each loop of the source is a method proved against a function. The lemmas about that function state what the
source promises.

## Model

| member | source | states |
|---|---|---|
| Uint64.Add | internal/mysql/index.go:24-25 | uint64 addition: the exact sum when it fits, the sum less 2^64 when it overflows |
| Uint64.SumWraps | internal/mysql/database.go:24-28 | an accumulated size is the exact sum of the parts reduced modulo 2^64, for min and max separately |
| Uint64.SumAppend | internal/mysql/index.go:22-27 | accumulating one more size adds it to the running total |
| DataTypes.NewDataType | internal/mysql/data_type.go:13-15 | the type name is the argument upper-cased, character by character, same length |
| DataTypes.NewDataTypeIgnoresCase | internal/mysql/data_type.go:13-15 | names that differ only in case give the same type |
| DataTypes.Size | internal/mysql/data_type.go:65-112 | no contract of its own: FixedWidths, FixedMinEqualsMax, FloatAndDecimal, Temporal, VarSizes, VarCharUnknownCharset, BlobsWithoutLength, BlobsWithLength, EnumAndSet and UnknownType state its value case by case |
| DataTypes.FixedWidths | internal/mysql/data_type.go:67-84 | TINYINT and YEAR take 1 byte; SMALLINT 2; MEDIUMINT and DATE 3; INT and INTEGER 4; BIGINT, DOUBLE and REAL 8; CHAR and BINARY the declared size; BIT (size+7)/8 |
| DataTypes.FixedMinEqualsMax | internal/mysql/data_type.go:67-92 | every fixed-width type has min == max, whatever the size and charset |
| DataTypes.FloatAndDecimal | internal/mysql/data_type.go:81-86 | FLOAT is 4 bytes up to precision 24 and 8 above; DECIMAL and NUMERIC are (4, 8) |
| DataTypes.Float | internal/mysql/data_type.go:145-150 | min == max, and it is 4 exactly when the size is at most 24, else 8 |
| DataTypes.Temporal | internal/mysql/data_type.go:87-92 | TIME, TIMESTAMP and DATETIME are 3, 4 and 5 bytes plus fsp(size) |
| DataTypes.Fsp | internal/mysql/data_type.go:153-164 | the fractional-seconds storage is at most 3, and 0 exactly for size 0 |
| DataTypes.FspMonotone | internal/mysql/data_type.go:153-164 | fsp never decreases with the size and steps at 1, 3 and 5 |
| DataTypes.Variable | internal/mysql/data_type.go:176-184 | the length prefix is 2 bytes above 255, else 1 |
| DataTypes.VariableOrdered | internal/mysql/data_type.go:176-184 | variable(n) is (1, 255) for 0, (1, n+1) up to 255, (2, n+2) above; min <= max exactly when n+2 does not overflow |
| DataTypes.VarSizes | internal/mysql/data_type.go:93-96 | VARCHAR feeds in n times the charset width; VARBINARY feeds in n |
| DataTypes.VarCharUnknownCharset | internal/mysql/data_type.go:93-94 | a VARCHAR whose charset is not in the table is (1, 255), whatever its length |
| DataTypes.VarCharMonotone | internal/mysql/data_type.go:93-94 | a longer VARCHAR never has a smaller max, for a known charset and no overflow |
| DataTypes.Bytes | internal/mysql/data_type.go:130-135 | size times the charset width for a listed charset; 0 for any other name |
| DataTypes.Blob | internal/mysql/data_type.go:119-124 | min is the reserved length; with a length the max is the length plus the reserve, wrapping; without one it is cap-1 plus the reserve |
| DataTypes.BlobsWithoutLength | internal/mysql/data_type.go:97-104 | with no length, each of TINYBLOB/TINYTEXT, BLOB/TEXT, MEDIUMBLOB/MEDIUMTEXT and LONGBLOB/LONGTEXT/JSON gets reserve 1, 2, 3, 4 and cap 255, 65535, 16777216, 2^32-1 |
| DataTypes.BlobsWithLength | internal/mysql/data_type.go:97-104 | for every blob and text type and JSON, with a length in a listed charset and no overflow, the max is the length in bytes plus the reserve |
| DataTypes.BlobsWithBytes | internal/mysql/data_type.go:97-104 | for every blob and text type and JSON, whenever the length in bytes is non-zero, the max is that length plus the reserve, wrapping at 2^64 |
| DataTypes.Enum | internal/mysql/data_type.go:138-143 | min == max, 1 byte exactly up to 255 members, else 2 |
| DataTypes.SetSize | internal/mysql/data_type.go:166-174 | min == max and within 1..8 |
| DataTypes.EnumAndSet | internal/mysql/data_type.go:105-108 | ENUM is 1 byte up to 255 members, else 2; SET is within 1..8 and (n+7)/8 for 1..64 members |
| DataTypes.UnknownType | internal/mysql/data_type.go:109-111 | any name without a case is (0, 2^64-1) |
| DataTypes.TextIsUnknown | internal/mysql/data_type.go:46 | because the TEXT constant is spelled "TEST", a TEXT column is sized as unknown |
| Charsets.Width | internal/mysql/charset.go:11-53 | a width exactly for the listed names, compared as written, and the listed value |
| Charsets.WidthsInRange | internal/mysql/charset.go:11-53 | every listed width is between 1 and 4 |
| Charsets.DefaultWidth | internal/mysql/charset.go:8 | the default charset utf8mb4 has width 4 |
| Charsets.SampleWidths | internal/mysql/charset.go:14-51 | latin1, ascii and binary are 1; ucs2 2; utf8 3; utf16 and utf32 4 |
| RowFormats.ToRowFormat | internal/mysql/row_format.go:10-12 | the format is the argument lower-cased, character by character |
| RowFormats.ToRowFormatIdempotent | internal/mysql/row_format.go:10-12 | converting twice is converting once |
| RowFormats.KnownFormats | internal/mysql/row_format.go:18-25 | "" is unknown; any casing of compressed, dynamic or static gives that constant |
| Engines.ToEngine | internal/mysql/engine.go:15-24 | the result is InnoDB, MyISAM or the unrecognised engine |
| Engines.ToEngineCases | internal/mysql/engine.go:15-24 | InnoDB exactly for "" and any casing of innodb; MyISAM exactly for any casing of myisam; unrecognised otherwise |
| Engines.Fields | internal/mysql/engine.go:36-42 | one item per column, in order, with the column's name, kind and size |
| Engines.PrimaryKeySize | internal/mysql/engine.go:63-68 | the size of the key at `primary`, or the 6-byte clustered index when there is none |
| Engines.InnoDBKeys | internal/mysql/engine.go:59-80 | the loop yields InnoDBKeysOf: one item per key |
| Engines.InnoDBKeysShape | internal/mysql/engine.go:59-80 | each key keeps its name and kind; a primary key keeps its size; any other adds the primary key's size, or (6, 6) without one |
| Engines.MyISAMKeys | internal/mysql/engine.go:83-97 | the loop yields MyISAMKeysOf: one item per key |
| Engines.MyISAMKeysShape | internal/mysql/engine.go:83-97 | each key keeps its name and kind; min and max go through the key-length estimate separately; equal raw sizes give equal results |
| Engines.Keys | internal/mysql/engine.go:45-54 | dispatch on the engine to the InnoDB or MyISAM keys, none otherwise |
| Engines.InnoDBRowFormat | internal/mysql/engine.go:112-117 | InnoDB keeps any given format and defaults to dynamic |
| Engines.MyISAMRowFormat | internal/mysql/engine.go:119-129 | the early-exit search yields MyISAMFormat |
| Engines.MyISAMFormatCases | internal/mysql/engine.go:119-129 | MyISAM keeps compressed; otherwise dynamic exactly when some column is variable-length, else static |
| Engines.RowFormat | internal/mysql/engine.go:101-110 | dispatch on the engine; unrecognised engines give the unknown format |
| Engines.RowFormatIdempotent | internal/mysql/engine.go:101-129 | resolving a resolved format changes nothing, for every engine |
| Engines.InnoDBRowSize | internal/mysql/engine.go:143-151 | the componentwise uint64 sum of the column sizes |
| Engines.MyISAMCounts | internal/mysql/engine.go:159-177 | the loop's totals and its nullable, variable and string counts, as uint64 |
| Engines.MyISAMRowSize | internal/mysql/engine.go:159-208 | the row size per format, as MyISAMRow defines it |
| Engines.MyISAMStaticExact | internal/mysql/engine.go:180-187 | without overflow, static rows are 1 + Σmax + (nullable+8)/8 + variable count for both bounds |
| Engines.MyISAMDynamicExact | internal/mysql/engine.go:188-199 | without overflow, each bound of a dynamic row is 3 + (columns+7)/8 + string count + that bound's total + (nullable+7)/8 |
| Engines.MyISAMCompressedExact | internal/mysql/engine.go:200-204 | without overflow, compressed rows are (1 + Σmin, 3 + Σmax) |
| Engines.RowSize | internal/mysql/engine.go:132-141 | dispatch on the engine to the InnoDB or MyISAM row size |
| Engines.DispatchFacts | internal/mysql/engine.go:51-52 | an unrecognised engine has no keys, the unknown format and size (0, 0); InnoDB's row size ignores the format |
| Columns.KindShapes | internal/mysql/column.go:29-44 | integer types show the bare type; others show "(size)" when the size is set, then the charset for string types; the bare type when there is nothing to show |
| Columns.TotalAppend | internal/mysql/column.go:24-26 | a column adds the size of its type, length and charset to a total |
| Indexes.Size | internal/mysql/index.go:20-28 | the loop gives the uint64 sum of the column sizes |
| Indexes.Names | internal/mysql/index.go:31-35 | the column names in stored order |
| Indexes.KindShapes | internal/mysql/index.go:31-40 | the kind is "" exactly without columns, when the size is (0, 0); one column gives "key(name)" |
| Indexes.SizeOnlyFromColumns | internal/mysql/index.go:20-28 | two keys with the same columns have the same size, whatever their name and primary flag |
| Tables.KindShapes | internal/mysql/table.go:42-51 | "table(" + the non-empty engine and row format joined by ", " + ")" |
| Tables.PrimaryKeyIndex | internal/mysql/table.go:63-70 | the first primary key's position, or -1 when there is none |
| Tables.ColumnIndex | internal/mysql/table.go:135-142 | the first column of that name, or -1 when there is none |
| Tables.ResolvedShape | internal/mysql/table.go:144-159 | every name resolves exactly when all are columns, each to the first column of that name |
| Tables.NamedColumnsShape | internal/mysql/table.go:144-159 | columnsNamed is empty unless all names resolve; then it holds those columns in the order asked |
| Tables.ColumnsNamed | internal/mysql/table.go:144-159 | the loop yields NamedColumns |
| Tables.Keys | internal/mysql/table.go:59-61 | the engine's keys for the table's indexes and its first primary key |
| Tables.Size | internal/mysql/table.go:73-82 | the loop yields SizeOf |
| Tables.SizeIsRowPlusKeys | internal/mysql/table.go:73-82 | a table's size is the engine's row size plus the sizes of all keys |
| Tables.AnalyzeValid | internal/mysql/table.go:25-33 | a table is accepted exactly with a name, an engine and columns; a missing engine is the invalid-data error |
| Tables.AnalyzeIdempotent | internal/mysql/table.go:25-37 | Analyze changes only the row format, keeps the verdict, and twice is once |
| Tables.AnalyzedFormat | internal/mysql/table.go:34 | a valid InnoDB table gets a known format; a valid MyISAM one gets compressed, dynamic or static |
| Tables.WithKeyShape | internal/mysql/table.go:119-130 | addKey fails with no change exactly when no name is given or one is not a column; otherwise one key is appended with the named columns in order, the name and the flag |
| Tables.WithKeysShape | internal/mysql/table.go:89-110 | addKeys changes only the key list, which grows at the end: when all succeed, by one key per definition with its name, primary flag and named columns; when one fails, at some j the definitions before j succeed, the one at j fails, and the outcome is ErrInvalid with the keys added before j kept |
| Tables.TableDraft.Analyze | internal/mysql/table.go:25-37 | the error and the new state are those of AnalyzeError and Analyzed |
| Tables.TableDraft.AddKey | internal/mysql/table.go:119-130 | the error and the new state are those of WithKey |
| Tables.TableDraft.AddKeys | internal/mysql/table.go:89-110 | the loop stops at the first error; the result is WithKeys |
| Databases.Size | internal/mysql/database.go:22-30 | the loop gives the uint64 sum of the table sizes |
| Databases.SizeGrowsByTable | internal/mysql/database.go:22-30 | no tables is (0, 0); one more table adds exactly its size |
| Storages.Get | internal/mysql/storage.go:137-144 | the first database of that name, or the invalid-data error exactly when there is none |
| Storages.AddDatabaseShape | internal/mysql/storage.go:21-30 | the name is returned; an existing name changes nothing; a new one is appended empty; names stay distinct |
| Storages.DropDatabaseShape | internal/mysql/storage.go:33-39 | an absent name changes nothing; otherwise one database fewer, the others in order, names distinct and the name gone |
| Storages.Options | internal/mysql/storage.go:76-88 | the loop yields OptionsOf |
| Storages.FoldOptionsKeys | internal/mysql/storage.go:81-85 | the keys are exactly the lower-cased parts before the first "=" of the pieces that have one |
| Storages.FoldOptionsLastWins | internal/mysql/storage.go:84 | a key holds the value of the last piece that names it |
| Storages.OptionKeysLowerCase | internal/mysql/storage.go:84 | every key is lower case |
| Storages.NoOptions | internal/mysql/storage.go:77-79 | without an options text the engine is InnoDB and the row format unknown |
| Storages.ColumnsOf | internal/mysql/storage.go:90-108 | one column per definition, in order, with its name and NOT NULL flag |
| Storages.ColumnsFrom | internal/mysql/storage.go:90-108 | the loop yields ColumnsOf |
| Storages.CreateTable | internal/mysql/storage.go:42-64 | driving a TableDraft yields CreatedTable |
| Storages.CreatedTableShape | internal/mysql/storage.go:42-64 | an unknown database fails; an unnamed table fails; success appends one table of that name to that database only |
| Storages.CheckDatabase | internal/mysql/storage.go:111-135 | no error exactly when the database exists; otherwise invalid data |
| Parser.Parse | internal/mysql/parser.go:15-55 | the loop yields ParseOf |
| Parser.Step | internal/mysql/parser.go:26-53 | only CREATE, ALTER, DROP and RENAME TABLE can fail, and any other statement is ignored; DatabaseStatements, CheckedTableStatements, DefaultDatabaseSelected and CreateTableStatement state each case |
| Parser.ParsedNamesDistinct | internal/mysql/parser.go:26-54 | the parsed storage never holds two databases of one name |
| Parser.DatabaseStatements | internal/mysql/parser.go:27-33 | CREATE DATABASE succeeds, makes that database present and current; DROP DATABASE succeeds and keeps the current name |
| Parser.CheckedTableStatements | internal/mysql/parser.go:34-51 | ALTER, DROP and RENAME TABLE fail exactly when the current database is not the default and is missing; otherwise only the default database may be added |
| Parser.DefaultDatabaseSelected | internal/mysql/parser.go:36-38 | a table statement under the default name ensures that database exists and stays current |
| Parser.CreateTableStatement | internal/mysql/parser.go:40-41 | a created table goes to the end of the current database, the other databases unchanged |
| Parser.RunAppend | internal/mysql/parser.go:21-54 | parsing two runs of statements is parsing the second from where the first ends, and the first error aborts |
| Parser.IgnoredStatements | internal/mysql/parser.go:26-53 | no statements give an empty storage; other statements change nothing |
| Estimators.ApplyRefusedIdempotent | internal/mysql/estimator.go:45-80 | an option is refused exactly for perN 0 (missing data) or precision above 255 (invalid), whatever the settings; an accepted option applied again changes nothing |
| Estimators.Estimator.ApplyOption | internal/mysql/estimator.go:45-80 | a refused option returns its error and leaves the settings; an accepted one sets its field |
| Estimators.ConfiguredFirstRefusal | internal/mysql/estimator.go:89-94 | the options fail with the error of the first refused one |
| Estimators.ConfiguredAccepted | internal/mysql/estimator.go:89-94 | options that are all accepted succeed |
| Estimators.LastPerNWins | internal/mysql/estimator.go:45-53 | the last SetPerN decides the count; without one it is kept |
| Estimators.LastPrecisionWins | internal/mysql/estimator.go:56-64 | the last SetPrecision decides the precision; without one it is kept |
| Estimators.EstimateDefaults | internal/mysql/estimator.go:83-96 | with no options the settings are per 100 with 2 decimals; caller options apply after those defaults |
| Estimators.Estimate | internal/mysql/estimator.go:83-96 | fails exactly as EstimateOf does, with its error; otherwise a new estimator with those settings |
| Estimators.EstimatedRuns | internal/mysql/estimator.go:28-29 | an estimator from Estimate has a non-zero per-N count |
| Estimators.RunFailures | internal/mysql/estimator.go:108-117 | the process error without a count, then the parse error, then missing data without databases |
| Estimators.Estimator.Run | internal/mysql/estimator.go:107-138 | the nested loops yield RunOf |
| Estimators.ReportRows | internal/mysql/estimator.go:119-138 | the loop yields Report: per database, a separator when verbose, its tables' rows, then its row |
| Estimators.TableReport | internal/mysql/estimator.go:123-136 | a table's rows: fields and keys when verbose, its row, a blank when verbose |
| Estimators.DetailRows | internal/mysql/estimator.go:124-131 | the rows of the fields then of the keys, one per item in order |
| Estimators.DatabaseReport | internal/mysql/estimator.go:119-137 | a database's rows: its tables' rows in order, then its own row |
| Estimators.RenderedAppend | internal/mysql/estimator.go:119-138 | appending lines appends their rows, so the rows can be built line by line |
| Estimators.RowsHaveSixCells | internal/mysql/estimator.go:162-193 | every printed row, a data row or a blank one, has six cells, as the header |
| Estimators.QuietReport | internal/mysql/estimator.go:119-138 | not verbose: one row per table and per database, the last one the last database's row |
| Estimators.QuietTablesLines | internal/mysql/estimator.go:123-136 | not verbose: exactly one line per table, the table itself, in order |
| Estimators.QuietReportLines | internal/mysql/estimator.go:119-138 | not verbose: one line per table and per database, the last one the last database |
| Estimators.VerboseTableLines | internal/mysql/estimator.go:124-135 | verbose: the field lines name the columns in order, then the key lines, the table line and a blank line |
| Estimators.Header | internal/mysql/estimator.go:166-168 | six cells, the last two the xRow labels of the count |
| Estimators.RowOf | internal/mysql/estimator.go:184-193 | no contract of its own: RowsHaveSixCells gives its six cells, RowPerOne relates the per-N cells to the per-row ones, and the HumanSize lemmas give each size cell |
| Estimators.Blank | internal/mysql/estimator.go:162-164 | as many cells as the header, all empty |
| Estimators.RowPerOne | internal/mysql/estimator.go:184-193 | per one row, the per-N cells repeat the per-row cells |
| Estimators.XRowRoundTrip | internal/mysql/estimator.go:201-210 | "X " then the decimal count, which reads back as the number, then " (min)" or " (max)" |
| Size.FormatUintRoundTrip | pkg/ds/size.go:48-50 | the decimal digits read back as the number |
| Size.FormatUintDigits | pkg/ds/size.go:48-50 | at least one digit, all digits, no leading zero |
| Size.Interval | pkg/ds/size.go:52-65 | bytes exactly up to 1 KB; otherwise the largest unit strictly below the value |
| Size.UnitWidth | pkg/ds/size.go:13-19 | each unit is 10 to the power of its digit count |
| Size.Min | pkg/ds/size.go:83-88 | the smaller argument |
| Size.FractionalAsWritten | pkg/ds/size.go:67-81 | min(n, padded length) characters, a prefix of the remainder padded by its own magnitude |
| Size.Fraction | pkg/ds/size.go:67-81 | the corrected `fractional` of the Findings table: min(n, unit width) characters, all decimal digits, whose value is the remainder of a unit truncated to that many digits |
| Size.Format | pkg/ds/size.go:30-43 | the corrected `Unit.Format` of the Findings table, with no contract of its own: FormatBytes (up to 1 KB), FormatWholeUnits (no decimals) and FormatTruncates (above 1 KB) state what it prints in each branch |
| Size.FormatAsWritten | pkg/ds/size.go:30-43 | `Unit.Format` as written, with no contract of its own: FormatAsWrittenAgrees ties it to Size.Format, and the HumanSize example lemmas show it prints every output size_test.go expects |
| Size.FormatAsWrittenAgrees | pkg/ds/size.go:30-43 | as written and corrected print the same text whenever no fraction is printed or the remainder's own padding width equals the unit's digit count |
| Size.HumanSize | pkg/ds/size.go:21-24 | the corrected formatter applied to the byte count, with no contract of its own: the HumanSize example lemmas give the tested outputs |
| Size.FormatWholeUnits | pkg/ds/size.go:33-41 | with no decimals, the whole number of units and the unit |
| Size.FormatBytes | pkg/ds/size.go:32-37 | up to 1 KB with decimals: the value, ".", `decimal` zeros and " B" |
| Size.FormatTruncates | pkg/ds/size.go:38-42 | of the corrected formatter, above 1 KB: whole units, then min(decimal, unit width) digits that are the fraction of a unit truncated, never rounded |
| Size.HumanSizeWholeExamples | pkg/ds/size_test.go:23-25 | 0 is "0 B", 65535 is "65 KB", 2^32-1 is "4 GB" with no decimals, as written and corrected |
| Size.HumanSizeBytesExample | pkg/ds/size_test.go:31 | 557 with 2 decimals is "557.00 B", as written and corrected |
| Size.HumanSizeMegabyteExample | pkg/ds/size_test.go:28 | 8741208 with 2 decimals is "8.74 MB", as written and corrected |
| Size.HumanSizeKilobyteExample | pkg/ds/size_test.go:27 | 425005 with 2 decimals is "425.00 KB", as written and corrected |
| Size.HumanSizeLargestExample | pkg/ds/size_test.go:26 | 2^64-1 with 3 decimals is "18446744.073 TB", as written and corrected |
| Size.HumanSizeExample557891 | pkg/ds/size_test.go:30 | 557891 with 2 decimals is "557.89 KB", as written and corrected |
| Size.HumanSizeExample114710 | pkg/ds/size_test.go:32 | 114710 with 2 decimals is "114.71 KB", as written and corrected |
| Size.HumanSizeExample742289 | pkg/ds/size_test.go:36 | 742289 with 2 decimals is "742.28 KB", as written and corrected |
| Size.HumanSizeExample114448910 | pkg/ds/size_test.go:29 | 114448910 with 2 decimals is "114.44 MB", as written and corrected |
| Size.HumanSizeExample8933578 | pkg/ds/size_test.go:33 | 8933578 with 2 decimals is "8.93 MB", as written and corrected |
| Size.HumanSizeExample12033687 | pkg/ds/size_test.go:35 | 12033687 with 2 decimals is "12.03 MB", as written and corrected |
| Size.HumanSizeExample678007439 | pkg/ds/size_test.go:37 | 678007439 with 2 decimals is "678.00 MB", as written and corrected |
| Size.HumanSizeExample5849684981 | pkg/ds/size_test.go:34 | 5849684981 with 2 decimals is "5.84 GB", as written and corrected |
| Size.SmallRemainderMisread | pkg/ds/size.go:67-81 | 1000500 bytes with 2 decimals prints "1.50 MB" as written, and "1.00 MB" when padded to the unit |
| Size.ZeroRemainderShortened | pkg/ds/size.go:67-81 | 2000000 bytes with 4 decimals prints "2.000 MB" as written, and "2.0000 MB" when padded to the unit |
| DataItems.NewDataSize | pkg/ds/data_test.go:27-36 | the item keeps its name and kind and takes the new size |
| DataItems.TotalAppend | internal/mysql/table.go:76-80 | one more item adds its size to a total |
| Strings.SplitN2 | internal/mysql/storage.go:82 | two parts exactly when the separator occurs; they rebuild the string around its first occurrence |
| Strings.JoinSplit | internal/mysql/storage.go:81 | splitting on a character and joining back gives the string |

## Left out

- Reading SQL text is not modelled: the tokenizer, `sqlparser.ParseNext` and its statement structs. `Statements.Statement` stands for the statements the parser delivers. A statement that does not parse is an ignored `OtherStatement`.
- `strconv.ParseUint` of a column length is not modelled. The length is given as `Option<U64>`, already read. The out-of-range and malformed cases of ParseUint are not modelled.
- The MyISAM key-length estimate `uint64((float64(size) + 4) / 0.67)` is floating point. It is the parameter `Env.keyLength`. Only its structural facts are proved: per bound, names and kinds kept, same length.
- `IsVar`, `IsString`, `IsInt`, `ToDataType`, `Charset(column, database)` and `DefaultDatabaseName` are defined in none of the modelled files. They are fields of `Externals.Env`.
- `ds.WrapErr` and `fmt.Errorf` add message text. The model keeps only the error kind (`Errors.Error`).
- `Estimator.render` and `batchRender` print through tablewriter and encoding/csv. `Run` is modelled up to the list of rows. The `batch` flag is kept in the settings but chooses nothing.
- main.go (flags, files, exits) is not part of this model.
- Unicode case mapping of `strings.ToUpper`/`ToLower`/`EqualFold` is modelled as ASCII case mapping.
- Storage is a value.
  - `dropDatabase` shifts the slice in place with `append(s[:i], s[i+1:]...)`, and `createTable` appends to `s[i].Tables` in place. The model returns the new storage instead.
  - Aliasing between the old and new slices is not modelled.
- `Engines.MyISAMRowSize`: the source also counts `ni` in its loop, which no formula uses. The model leaves it out.
- Charsets.SampleWidths: does not state that a differently cased name such as "UTF8" is absent from the table. Only the listed names' widths are stated.
- Engines.MyISAMStaticExact, Engines.MyISAMDynamicExact, Engines.MyISAMCompressedExact: state the closed forms only when no sum overflows. `Engines.MyISAMRowSize` states the wrapping result for all inputs.
- Size.HumanSize: prints the fraction as padded to the unit's width (`Size.Format`), not as written. See Findings. `Size.FormatAsWrittenAgrees` states when the two print the same text; every case in size_test.go is one of them.
- Size.Format: is the corrected `Unit.Format`. The as-written one is `Size.FormatAsWritten`, which prints something else when the remainder's own padding width differs from the unit's digit count.
- Size.Fraction: is the corrected `fractional`, padded to the unit's digit count. The as-written one, padded by the remainder's own magnitude, is `Size.FractionalAsWritten`.
- Size.FormatTruncates: states truncation of the fraction of a unit for the corrected formatter only. As written, a remainder padded by its own magnitude is not the fraction of a unit (Findings).

Where the repository's documentation and its code differ, the model follows the code:
- Table options: a later duplicate key overwrites an earlier one, and the text is split on single spaces.
- The medium blob cap is 16777216.
- The `Text` constant is "TEST".
- parser.go calls `AlterTable`, `DropTable` and `RenameTable`, while storage.go defines them in lower case. They are taken as the same operations, all of which are `Storages.CheckDatabase`.

## Findings

| source | as written | input that shows it | evidently intended | confidence | as-written member | corrected member |
|---|---|---|---|---|---|---|
| pkg/ds/size.go:67-81 | `fractional` zero-pads the remainder to 3, 6, 9 or 12 digits by the remainder's own magnitude, so a small remainder is read as a large fraction | `HumanSize(1000500, 2)`: remainder 500 of a megabyte is padded to "500" and printed "1.50 MB" | pad the remainder to the unit's digit count (6 for MB), giving "1.00 MB" | not executed | Size.FormatAsWritten (Size.SmallRemainderMisread) | Size.Format (Size.FormatTruncates) |
| pkg/ds/size.go:67-81 | the same padding gives a zero remainder only 3 digits whatever the unit, so more than 3 decimals are cut short | `HumanSize(2000000, 4)`: remainder 0 is padded to "000" and printed "2.000 MB" | `decimal` digits up to the unit's digit count, giving "2.0000 MB" | not executed | Size.FormatAsWritten (Size.ZeroRemainderShortened) | Size.Format (Size.FormatTruncates) |
