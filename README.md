# ntds2db, modelled in Dafny

This project models the importer of the BTA toolset (`bta/ntds2db.py`). The
importer copies three tables of an Active Directory `ntds.dit` database (an
ESE file) into a storage backend:

- `sd_table`: security descriptors;
- `link_table`: links;
- `datatable`: directory objects.

The model covers these parts of the importer:

- **Column catalogs.** Each table's column catalog is built before its
  records are copied. `sd_table` and `link_table` use a static lookup. The
  `datatable` names and types its `ATT<letter><id>` columns by scanning its
  own schema rows (attributeId, msDS-IntId, attributeSyntax,
  ldapDisplayName).
- **Importing one table.** Every record becomes one row of the destination
  table, in order. Every catalog entry becomes one row of the companion
  `<table>_meta` table (`to_json`).
- **The surrounding job.** `--only` selects which tables a job imports. The
  job commits only when every selected table was imported, then
  post-processes. `main` pairs the files with their destinations (`-C`,
  `--C-list` or `--C-from-filename`) and runs the jobs one after another.

How the source's forms map onto Dafny:

- Pure helpers are functions: `dbsanecolname`, `win2epoch`,
  `syntax_to_type`, `to_json`, `str.split`, `int()`.
- The loops of the source are methods with loop invariants, each proved
  against a specification function: both `identify_columns`, `parse_file`,
  the two loops of `create`, the job loop and the configuration of `main`.
  In particular, the `datatable` scan with its early `break` is proved equal
  to a scan over every row.
- `import_file` has no loop of its own: it runs up to three `if … create()`
  statements in a fixed order (lines 236-244). `Orchestrator.ImportSelected`
  writes these as one loop over the selected tables in that order, stopping
  at the first table that stops the job, as an exception would.
- The backend and the audit log (`dblog`) are one class, `Storage.Backend`.
  It records every call it receives in `ops`. The properties of an import
  are stated over that trace.
- The ESE file is a value: per table, its column names and its records.
- A user interrupt (Ctrl-C) is a parameter: the record of the given table
  before which the signal arrives.

Modules:

| file | module | source |
|---|---|---|
| `common.dfy` | `Common` | `Option` / `Result` |
| `text.dfy` | `Text` | `dbsanecolname`, `int()`, `str.lower`, `str.split` |
| `epoch.dfy` | `Epoch` | `win2epoch` |
| `typemap.dfy` | `TypeMapper` | `attsyntax2type`, `type2type`, `syntax_to_type` |
| `columns.dfy` | `Columns` | `ESEColumn`, `to_json`, the three static tables, the record source |
| `catalog.dfy` | `Catalog` | `ESETable.identify_columns` |
| `schema.dfy` | `Schema` | `Datatable.identify_columns` |
| `storage.dfy` | `Storage` | the backend and audit-log calls |
| `importer.dfy` | `Importer` | `ESETable.create`, `parse_file` |
| `orchestrator.dfy` | `Orchestrator` | `import_file`, `main` |

## Model

| member | source | states |
|---|---|---|
| Text.DbSaneColName | bta/ntds2db.py:23-24 | The result has the input's length and contains no '-'. Each '-' becomes '_' and every other character is kept. |
| Text.DbSaneColNameFixesSafeNames | bta/ntds2db.py:23-24 | A name without '-' is returned unchanged. |
| Text.DbSaneColNameIdempotent | bta/ntds2db.py:23-24 | Sanitizing twice gives the same result as sanitizing once. |
| Text.Drop | bta/ntds2db.py:179 | `name[4:]` is empty for a name shorter than 4 characters; otherwise the name is its first 4 characters followed by the result. |
| Text.Lower | bta/ntds2db.py:236 | The result has the same length, each character is lowered, and no upper-case ASCII letter remains. |
| Text.LowerIdempotent | bta/ntds2db.py:236 | Lowering twice gives the same result as lowering once. |
| Text.ParseInt | bta/ntds2db.py:179 | `int()` succeeds exactly on non-empty digits, optionally after one sign character. |
| Text.NatToString | bta/ntds2db.py:179 | The decimal spelling of a number is non-empty digits with no leading zero. |
| Text.ParseIntOfNatToString | bta/ntds2db.py:179 | `int(str(n)) == n`. |
| Text.Split | bta/ntds2db.py:309 | `split(",")` always yields at least one piece. |
| Text.JoinSplit | bta/ntds2db.py:309 | Joining the pieces of a split with the separator gives back the input. |
| Text.SplitPiecesAvoidSep | bta/ntds2db.py:309 | No piece of a split contains the separator. |
| Text.SplitCount | bta/ntds2db.py:309 | A split yields one more piece than there are separators. |
| Text.SplitJoin | bta/ntds2db.py:309 | The three split properties above together. |
| Epoch.DaysBetweenClosedForm | bta/ntds2db.py:20-21 | The year-by-year Gregorian day count between two years equals the closed form 365 days per year plus the leap days. |
| Epoch.ShiftIsEpochDistance | bta/ntds2db.py:20-21 | The constant 11644473600 is exactly the number of seconds from 1601-01-01 to 1970-01-01. |
| Epoch.Win2EpochIsEpochShift | bta/ntds2db.py:20-21 | The Windows time of the Unix epoch converts to 0. Differences between instants and their order are preserved. |
| TypeMapper.SyntaxName | bta/ntds2db.py:142-160 | A code has a syntax name exactly when it is one of 0x80001 to 0x80011. A missing code has none. |
| TypeMapper.SyntaxCodesAreDirectorySyntaxes | bta/ntds2db.py:142-160 | The codes of `attsyntax2type` are exactly those of syntaxes 2.5.5.1 to 2.5.5.17. |
| TypeMapper.SyntaxToTypeTable | bta/ntds2db.py:162-172 | `syntax_to_type` is total. Six codes get their own type: DN, OID and CaseExactString give Text; GeneralizedTime gives Timestamp; Integer8 gives Int; NTSecurityDescriptor gives (NTSecDesc, true). Every other code, and a missing one, gives ("UnknownType", false). |
| TypeMapper.IndexedOnlyForSecurityDescriptors | bta/ntds2db.py:162-172 | The index flag is set, and the type is NTSecDesc, exactly for code 0x8000f. |
| TypeMapper.NamedButUntypedFallsBack | bta/ntds2db.py:142-172 | 0x80004 has a name (CaseIgnoreString) but still falls back to ("UnknownType", false), as does a missing code. |
| Columns.ToJson | bta/ntds2db.py:33-34 | A metatable row has exactly the keys name, attname, type and index. |
| Columns.JsonRoundTrip | bta/ntds2db.py:33-34 | Writing a descriptor with `to_json` and reading it back gives the same descriptor. |
| Columns.JsonRoundTripBack | bta/ntds2db.py:33-34 | A row with the four keys that reads back as a descriptor is exactly that descriptor's `to_json` row. |
| Columns.TableNamesDistinct | bta/ntds2db.py:99-124 | The three table names differ, and none of them is another table's `_meta` name. |
| Columns.AttnameMap | bta/ntds2db.py:44 | `attname2col` has exactly the declared attnames as keys, and each maps to a declared column with that attname. |
| Columns.AttnameMapFindsEachColumn | bta/ntds2db.py:44 | When attnames are distinct, every declared column is found under its own attname. |
| Columns.StaticColumnsDistinct | bta/ntds2db.py:99-134 | The attnames declared for each of the three tables are distinct. |
| Catalog.IdentifyColumns | bta/ntds2db.py:48-56 | The loop returns the static catalog of the table's columns. |
| Catalog.StaticCatalogShape | bta/ntds2db.py:48-56 | There is one descriptor per raw column, in order, and each names its raw column. A declared name gives the `attname2col` entry. Any other name gives (dbsanecolname(name), name, "UnknownType", false). |
| Catalog.StaticCatalogOfDeclaredColumns | bta/ntds2db.py:44-56 | A table whose columns are exactly the declared ones, in declared order, gets exactly the declared catalog back. |
| Schema.ColumnIdOfAttName | bta/ntds2db.py:179 | `int(name[4:])` reads back the id written in an `ATT<letter><id>` name. |
| Schema.WorkingMap | bta/ntds2db.py:179 | Every entry of the working map is an `ATT` column of the table, keyed by the id in its own name. |
| Schema.WorkingMapCoversAttColumns | bta/ntds2db.py:179 | When the working map is built, every `ATT` column has a numeric id in it. The column kept for an id is the last one that carries it. |
| Schema.WorkingMapErrorNamesBadColumn | bta/ntds2db.py:179 | Building fails exactly when some `ATT` column has a non-numeric suffix, and the error names such a column. |
| Schema.WorkingMapNamesInjective | bta/ntds2db.py:179 | No two ids of the working map share a column name. |
| Schema.LocateSchemaColumns | bta/ntds2db.py:183-187 | `lcols` is found exactly when ids 131102, 591540, 131104 and 131532 are all in the working map; its positions are those columns' positions. Otherwise the error is a missing key that is not in the map. |
| Schema.MatchedKey | bta/ntds2db.py:194-200 | A row with an empty display name, or with neither id, consumes nothing. A live row consumes its attributeId when that id is still in the working map, and otherwise its msDS-IntId when that one is. It consumes nothing only when neither id is present. |
| Schema.Step | bta/ntds2db.py:193-203 | A row that matches nothing changes nothing. A match removes exactly that id and records the row's display name and syntax under the matched column's name. |
| Schema.ScanWithNothingLeft | bta/ntds2db.py:204-206 | Once the working map is empty, no row changes anything. |
| Schema.ScanAppend | bta/ntds2db.py:191-206 | Scanning `a + b` is scanning `a`, then `b`. |
| Schema.ScanKeepsUnmentioned | bta/ntds2db.py:198-200 | An id that no row mentions stays in the map with its column. |
| Schema.ScanShrinks | bta/ntds2db.py:198-203 | The working map only shrinks and its entries never change. Resolved names only grow, and `att2ldn` and `att2asy` keep the same keys. |
| Schema.ScanResolvesConsumed | bta/ntds2db.py:198-203 | Every consumed id has its column's name resolved. Every newly resolved name belongs to a consumed id's column. |
| Schema.ScanPreservesSettled | bta/ntds2db.py:198-203 | Once no remaining column can claim a resolved name, its display name and syntax stay fixed. |
| Schema.ScanSplitAt | bta/ntds2db.py:191-203 | A scan splits around any row. |
| Schema.StepSettles | bta/ntds2db.py:194-203 | A live row that claims id k (its attributeId, or its msDS-IntId when the attributeId is absent or already consumed) settles k's column name, and no remaining column has that name. |
| Schema.ScanFirstDefinitionWins | bta/ntds2db.py:191-203 | First pop wins: when id k is still in the map the rows before row j left, and row j claims it, row j gives k's column its final display name and syntax. The claim is by attributeId, or by the msDS-IntId fallback when the attributeId is absent or no longer in that map. Earlier rows that were skipped or mentioned k without popping it do not matter, and later definitions are ignored. |
| Schema.ScanFallsBackAfterDuplicate | bta/ntds2db.py:194-203 | A row whose attributeId an earlier duplicate definition already consumed resolves its msDS-IntId's column instead, and the earlier row keeps its own column. |
| Schema.ScanSkipsDeadMention | bta/ntds2db.py:194-203 | A row that mentions an id but is skipped for its empty display name does not stop the next row from resolving that id's column. |
| Schema.ScanFallsBackToMsds | bta/ntds2db.py:194-200 | A row with an empty display name changes nothing; a row whose attributeId is not a datatable column resolves the column of its msDS-IntId instead. |
| Schema.ScanOrderMatters | bta/ntds2db.py:191-203 | With one id defined twice, swapping the two rows changes the resolved name, so the result depends on the order of the schema rows. |
| Schema.ScanLeavesUnmentionedUnresolved | bta/ntds2db.py:198-203 | A name whose ids no row mentions is never resolved. |
| Schema.ScanSchemaRows | bta/ntds2db.py:191-206 | The loop with its early `break` ends with the same `att2ldn` and `att2asy` as a scan over every record. |
| Schema.DescribeColumns | bta/ntds2db.py:209-219 | The final loop returns one description per raw column, in order. |
| Schema.IdentifyDatatableColumns | bta/ntds2db.py:175-219 | `Datatable.identify_columns` returns the specified catalog or raises the specified error. |
| Schema.DatatableCatalogAt | bta/ntds2db.py:209-219 | The catalog has one entry per raw column, and each entry is that column's description after the full scan. |
| Schema.DescribeUnresolved | bta/ntds2db.py:211-217 | A non-static name with no resolved entry gives (dbsanecolname(name), name, "UnknownType", false). |
| Schema.DescribeResolved | bta/ntds2db.py:211-217 | A non-static resolved name gives the sanitized display name, the raw name, and `syntax_to_type` of its syntax. |
| Schema.DatatableCatalogFailures | bta/ntds2db.py:179-187 | A bad `ATT` suffix is the catalog's error. Otherwise the catalog exists exactly when the four schema ids are present, and the error names an absent id. |
| Schema.DatatableCatalogShape | bta/ntds2db.py:209-219 | There is one entry per raw column, in order, and each names its raw column. Static columns are verbatim; every other name has no '-'. |
| Schema.DatatableUsesFirstDefinition | bta/ntds2db.py:191-219 | A dynamic column takes the sanitized display name and `syntax_to_type` of the schema row that pops its id: any row that claims the id while the id is still in the map the earlier rows left. |
| Schema.DatatableUsesMsdsFallback | bta/ntds2db.py:194-219 | A dynamic column whose id is still unconsumed when a live row names it as msDS-IntId, where that row's attributeId is absent or no longer in the working map (never a column id, or consumed by an earlier row), takes that row's sanitized display name and `syntax_to_type`. |
| Schema.DatatableUnmentionedIsUnknown | bta/ntds2db.py:209-219 | A dynamic column whose id no schema row mentions is (dbsanecolname(name), name, "UnknownType", false). |
| Storage.RowsInsertedAppend | bta/ntds2db.py:66 | The rows inserted by `a + b` are the rows inserted by `a`, followed by those inserted by `b`. |
| Storage.RowsStoredAppend | bta/ntds2db.py:92 | The same as the line above, for metatable rows. |
| Storage.Backend.constructor | bta/ntds2db.py:224-225 | A new backend has the given connection and an empty trace. |
| Storage.Backend.OpenTable | bta/ntds2db.py:79-81 | Appends exactly one `open_table` call to the trace. |
| Storage.Backend.CreateFields | bta/ntds2db.py:82 | Appends exactly one `create_fields` call to the trace. |
| Storage.Backend.CreateIndex | bta/ntds2db.py:84 | Appends exactly one `create_index` call to the trace. |
| Storage.Backend.InsertFields | bta/ntds2db.py:66 | Appends exactly one `insert_fields` call to the trace. |
| Storage.Backend.Insert | bta/ntds2db.py:92 | Appends exactly one `insert` call to the trace. |
| Storage.Backend.Audit | bta/ntds2db.py:76 | Appends exactly one audit entry to the trace. |
| Storage.Backend.Commit | bta/ntds2db.py:246 | Appends exactly one `commit` to the trace. |
| Storage.Backend.PostProcessAll | bta/ntds2db.py:250-251 | Appends exactly one post-processing pass to the trace. |
| Importer.IdentifyColumnsOf | bta/ntds2db.py:77 | The datatable uses schema resolution; the other two tables use the static lookup. |
| Importer.Streamed | bta/ntds2db.py:64-70 | No more records are streamed than the table holds. |
| Importer.RowsInsertedOfInsertOps | bta/ntds2db.py:65-66 | One `insert_fields` per record inserts exactly those records, in order. |
| Importer.LoadedRows | bta/ntds2db.py:79-85 | After loading, the table holds its earlier rows followed by the streamed records. |
| Importer.MetatableRows | bta/ntds2db.py:87-93 | The closing half of `create` stores one `to_json` row per column, in catalog order. |
| Importer.ParseFile | bta/ntds2db.py:58-72 | Inserts the records in order, and only those before the interrupt. It reports whether the interrupt fired. |
| Importer.CreateIndexes | bta/ntds2db.py:83-84 | Creates one index per declared index, in order. |
| Importer.FillMetatable | bta/ntds2db.py:91-92 | Inserts one `to_json` row per column, in order. |
| Importer.Load | bta/ntds2db.py:79-85 | Opens both tables, declares the fields, creates the indexes and streams the records. |
| Importer.FinishImport | bta/ntds2db.py:87-93 | Writes the count entry, then the metatable between its two audit entries. |
| Importer.ImportCatalogued | bta/ntds2db.py:79-93 | Loads, then (unless interrupted) closes with the count of rows this backend has inserted into the table. |
| Importer.ImportIdentified | bta/ntds2db.py:77-93 | A failed identification does nothing more; otherwise the table is imported. |
| Importer.CreateIdentified | bta/ntds2db.py:74-94 | After the opening audit entry, `create` proceeds as specified, and its outcome is imported, interrupted or failed. |
| Importer.Create | bta/ntds2db.py:74-94 | `create` appends exactly the specified calls to the trace and reports the specified outcome. |
| Importer.CatalogCoversColumns | bta/ntds2db.py:48-56 | A successful identification yields one descriptor per ESE column, for every table kind. |
| Importer.CreateOpsShape | bta/ntds2db.py:74-94 | A successful `create` is the opening entry, then the load, then the closing half. |
| Importer.CreateRowsByTable | bta/ntds2db.py:79-92 | A successful `create` inserts the streamed records into its table and nothing into any other table. |
| Importer.CreateRowsElsewhere | bta/ntds2db.py:79-92 | `create` for table `tn` inserts no row into any table other than `tn` and `tn_meta`, whatever happens. |
| Importer.CreateLeavesOtherTablesAlone | bta/ntds2db.py:236-244 | Creating one kind of table inserts no row into another kind's table, nor into any kind's metatable. |
| Importer.CreateStoresTheRecords | bta/ntds2db.py:58-72 | Exactly one `insert_fields` per source record reaches the table, in order: all records, or those before the interrupt. None are inserted when identification fails. The metatable receives no `insert_fields`. |
| Importer.CreateStoredRows | bta/ntds2db.py:87-93 | The metatable holds one `to_json` row per column unless the import was interrupted. |
| Importer.MetaRowsReadBack | bta/ntds2db.py:33-34 | Rows written by `to_json` read back as their columns. |
| Importer.CreateMetatableDescribesCatalog | bta/ntds2db.py:87-93 | After an uninterrupted import the metatable holds exactly one row per catalog entry, in order, and each reads back as that entry. Otherwise it holds nothing. |
| Importer.CreateRowsFitTheCatalog | bta/ntds2db.py:82-85 | When each record has one value per column, every inserted row is as wide as the declared catalog. |
| Importer.CreateDeclaresBeforeInserting | bta/ntds2db.py:76-85 | The import is announced first. Fields and indexes are declared before any record is inserted. A failed identification touches no table. |
| Importer.CreateInterruptedIsPrefix | bta/ntds2db.py:64-70 | What an interrupted `create` did is a prefix of what an uninterrupted one does. |
| Importer.CreateLeavesTheJobToTheCaller | bta/ntds2db.py:74-94 | `create` never commits and never post-processes. |
| Importer.CreateOpsLeaveTheJobToTheCaller | bta/ntds2db.py:74-94 | The same as the line above, for each table kind. |
| Orchestrator.SelectedTables | bta/ntds2db.py:236-244 | A table is selected exactly when the lowered filter is one of its aliases. |
| Orchestrator.SelectedTablesInOrder | bta/ntds2db.py:236-244 | Selected tables come in the order sd, link, data, with no table twice. |
| Orchestrator.SelectedTablesChoices | bta/ntds2db.py:236-244 | An empty filter selects all three tables. A non-empty filter selects at most one. The filter ignores letter case. |
| Orchestrator.ImportTable | bta/ntds2db.py:236-244 | One table: a missing table aborts the job; otherwise it is created. A stop is never "completed". |
| Orchestrator.ImportSelected | bta/ntds2db.py:236-244 | The selected tables are imported one after another until one stops the job. |
| Orchestrator.ImportFile | bta/ntds2db.py:222-253 | `import_file` opens a fresh backend on the job's destination, and its outcome and trace are as specified. |
| Orchestrator.ImportTablesAppends | bta/ntds2db.py:236-244 | Importing tables only appends to the trace, and never commits or post-processes. |
| Orchestrator.ImportFileCommitsOnlyCompletedWork | bta/ntds2db.py:227-253 | A job commits exactly when it completed and is not post-processing only. It post-processes exactly when it completed and post-processing is on. |
| Orchestrator.RunJob | bta/ntds2db.py:343 | Each job runs on a backend of its own, as `import_file` specifies. |
| Orchestrator.RunExtends | bta/ntds2db.py:343 | One more job's result extends the results so far. |
| Orchestrator.RunSequential | bta/ntds2db.py:341-343 | Jobs run in order, each as specified. An interrupted job does not stop the run. The first job that raises ends it. |
| Orchestrator.SequentialRunCoversAllUnlessAborted | bta/ntds2db.py:341-343 | When no job raises, every job runs and each has its specified outcome. |
| Orchestrator.Configure | bta/ntds2db.py:297-333 | The configuration steps of `main` return the specified jobs or error. |
| Orchestrator.ConfigurationAccepts | bta/ntds2db.py:297-333 | A run is accepted exactly when files are given, at most one destination mode is used, and the destination count equals the file count. Jobs then pair each file with its destination, in order. |
| Orchestrator.ListModeCountsCommas | bta/ntds2db.py:308-317 | With `--C-list` alone, a run is accepted exactly when the list has one comma fewer than there are files. The destinations rejoined with commas give the list back. |
| Orchestrator.FilenameModeNeverMismatches | bta/ntds2db.py:310-317 | With `--C-from-filename` alone, each file gets its rewritten destination and the counts always agree. |
| Orchestrator.EmptyListIsIgnored | bta/ntds2db.py:300-309 | An empty `--C-list` counts as not given. |
| Orchestrator.Run | bta/ntds2db.py:297-343 | A rejected configuration starts no job. An accepted one runs the jobs sequentially. |

Notes on the code's behaviour, as `bta/ntds2db.py` has it and as the model
follows it:

- **Interrupts.** `import_file` catches `KeyboardInterrupt` itself
  (lines 252-253). An interrupted job therefore ends quietly and the
  sequential run goes on with the next file; the run is not halted.
- **Schema resolution errors.** A resolution error is not caught. It ends
  the job, and because it escapes `map(import_file, jobs)`, it also ends
  the whole sequential run.
- **Order of schema rows.** The result can depend on row order. When an id
  is defined twice, the first live row wins (`Schema.ScanOrderMatters`).
- **Unique destinations.** Count matching does not make destinations
  unique. Two files may be given the same destination.
- **Missing schema column.** A missing schema column raises the dict's
  `KeyError`, because line 186 catches `IndexError`. The model's error
  carries the missing id, not the intended message.

## Left out

- The `libesedb` record source is a value: column names and records per table. Page and record parsing is not modelled.
- The backend's storage, `bta.dblog` and `bta.postprocessing` are not modelled. Only the calls the importer makes are recorded, in order. Backend failures are not modelled.
- The `with dblog_context` block is reduced to the audit entries written inside it. Whatever the context manager itself writes is not modelled.
- `--multi` (the `multiprocessing` pool and the progress-bar mothership) is not modelled: concurrency and terminal I/O. Only the sequential `map` is modelled.
- Progress bars and `logging` are not modelled, including the verbosity computation at line 305: they are side-effect plumbing.
- The interactive confirmation prompt (lines 322-330) is not modelled; it is console I/O.
- `optparse` is not modelled: the parsed options are parameters. So are options this file only passes on (`-B`, `--append`, `--overwrite`, `--proc-num`).
- `bta.tools.RPNedit` is not part of this model. `--C-from-filename` is an arbitrary function from file name to destination: the format applied to the RPN program's result.
- Importer.ParseFile: a user interrupt is modelled only as arriving before a record of the table being streamed. Interrupts during identification, the metatable, commit or post-processing are not modelled.
- Text.ParseInt: does not accept the surrounding whitespace that Python 2's `int()` also accepts.
- Schema.SchemaRows: attribute ids and syntaxes that are not integers, and display names that are not strings, read as missing. The values' own Python truthiness is not modelled.
- Storage.Backend.Count: `count()` is taken to be the rows this backend inserted in this job; rows already in a destination table (for example under `--append`) are not counted.
