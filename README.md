# OULAD ETL loader — a Dafny model

This project models the extract–clean–load core of the OULAD loader. The
loader reads the seven CSV files of the Open University Learning Analytics
Dataset, cleans each table and loads it into MySQL. First it fills nine
"domain" reference tables. Those tables give every categorical text value
(gender, region, assessment type, …) an auto-increment id, and the fact
rows carry that id as an "ordinal" column.

The model has four parts.

- **`DataCleaner`** (cleaner.dfy, with seqs.dfy, text.dfy and groupsum.dfy).
  Each of the seven cleaners is specified by a function over a sequence of
  rows, for example `Cleaner.VleCleaned`. A method such as `Cleaner.CleanVle`
  rebinds the table step by step, as the pandas code does, and is proved to
  compute that function. Lemmas then state what the cleaned tables contain.
  `clean_student_vle` is a group-by-sum. Its groups are kept in a sorted
  association list (groupsum.dfy).
- **`DatabaseConnection`** (database.dfy over store.dfy). The class keeps the
  `connection` and `cursor` fields and the committed database. An explicit
  fault oracle `faults: seq<bool>` has one entry per driver call; `true`
  means that call raises a driver `Error`. Each method is proved to leave
  the database, the oracle and its own result exactly as a pure function of
  the state before it says (`QueryOutcome`, `ManyOutcome`, `ScriptOutcome`,
  …). The store is abstract:
  - domain tables are lists of `(id, value)` entries with a next-id counter
    and `INSERT IGNORE` semantics;
  - fact tables are lists of rows with a primary-key prefix and
    `INSERT IGNORE` semantics;
  - the DDL script is recorded as a log of statements.
- **`ETLProcess`** (etl_process.dfy over etl.dfy). The class holds the
  connection object and `domain_maps`. Each private loader is a method
  proved to follow a function of module `ETL`. `run` is proved to perform
  the first `StopAt(crash)` of the nine steps, in the source's order, and to
  close the connection whenever it connected. The load's properties are
  proved about those functions: domain-table naming, what `_load_domain`
  inserts and reads back, ordinal lookups, batch slicing, and failed batches
  being skipped.
- **A second run** (rerun.dfy). Every insert is `INSERT IGNORE` and
  `domain_maps` is read back from the tables. So, with no driver fault and
  the nine domain tables present, running the whole load twice on the same
  files leaves every table and `domain_maps` as the first run left them;
  only the schema statements reach the log again (`Rerun.RerunAddsNothing`).

Inputs the model cannot compute are parameters:
- the CSV contents and the schema file are a `Datasets` value, whose
  `schema` is `None` when the file does not exist;
- driver failures are the fault oracle;
- a non-database exception inside `run`, such as a missing CSV file, is the
  parameter `crash: Option<Step>`. It raises at the start of the named step.

Where the code and its evident design disagree, the model follows the code:

- **Whole-cleaner idempotence fails for five of the seven cleaners.** The
  cleaners drop duplicates *before* they fill and normalise values, so two
  distinct raw rows can become equal after cleaning. A second cleaning pass
  then removes one of them. `Cleaner.VleCleanedNotIdempotent` exhibits this
  for `clean_vle` and `Cleaner.AssessmentsCleanedNotIdempotent` for
  `clean_assessments`. `clean_student_info`, `clean_student_registration`
  and `clean_student_assessment` have the same shape (dedup, then a per-row
  normalisation) and fail in the same way. The per-row normalisation of
  every one of them is idempotent (`Cleaner.FillDateIdempotent`,
  `Cleaner.NormalizeWeeksIdempotent`, `Cleaner.NormalizeInfoIdempotent`,
  `Cleaner.NormalizeRegistrationIdempotent`, `Cleaner.ScoreRowIdempotent`).
  Two cleaners are idempotent as a whole. `clean_courses` only filters
  (`Cleaner.CoursesCleanedIdempotent`). `clean_student_vle` leaves unique
  keys with positive sums, so grouping again changes nothing
  (`GroupSum.AggregatedIdempotent`). For the same reason, "no two identical
  rows" is proved of the output of `drop_duplicates` (`Seqs.Dedup`) and of
  the courses table. It is not claimed for tables that are normalised after
  deduplication.
- **Domain values come from the raw files.** Fact rows are looked up after
  cleaning. A cleaned value the raw file never held therefore gets a null
  ordinal: `"Unknown"`, a stripped string, or `"Yes"` cleaned from `"Y"`
  (`ETL.DisabilityOrdinalScenario`).
- **Only three tables are batched:** student_info (1000 rows),
  student_assessment (5000) and student_vle (10000). The other four loaders
  send one `execute_many`.
- **Return values are ignored.** A failed insert or batch is rolled back,
  returns False and the load goes on (`ETL.BatchOutcomeSkipsFailed`).
- **A failed cursor creation leaves the connection open.** When `connect()`
  succeeds but `cursor()` raises, `connect` returns False with
  `self.connection` open and no cursor. `run` then returns without calling
  `disconnect`. `Database.DatabaseConnection.Connect` and
  `EtlProcess.ETLProcess.Run` state this case.
- **The `if statement:` guard in `execute_script` is always true.** The
  splitter already drops blank pieces (`Text.SplitStatements` proves every
  statement is non-blank), so the guard does nothing and is not modelled.
- **`self.domain_maps[table]` raises `KeyError` for a missing table.** The
  model's total lookup `ETL.MapOf` is used instead. The loaders that look a
  table up require all nine maps to be present (`ETL.MapsReady`), and
  `ETL.Steps` proves they are present from the third step of `run` on. So
  the `KeyError` cannot happen inside `run`.

## Model

| member | source | states |
|---|---|---|
| Seqs.Dedup | ETL/data_cleaner.py:14 | `drop_duplicates()` returns no two equal rows, every output row is an input row, and every input row appears in the output |
| Seqs.DedupKeepsFirstOrder | ETL/data_cleaner.py:14 | the kept rows appear in the order of their first occurrence in the input |
| Seqs.DedupOfDistinct | ETL/data_cleaner.py:14 | a table without duplicates is returned unchanged |
| Seqs.DedupIdempotent | ETL/data_cleaner.py:14 | dropping duplicates twice is dropping them once |
| Seqs.Filter | ETL/data_cleaner.py:17 | a boolean mask keeps exactly the input rows that satisfy it, and no others |
| Seqs.FilterOfDistinct | ETL/data_cleaner.py:14-17 | filtering a duplicate-free table leaves it duplicate-free |
| Seqs.FilterIdempotent | ETL/data_cleaner.py:17 | applying the same mask twice is applying it once |
| Seqs.MapRows | ETL/data_cleaner.py:48-49 | a column assignment computed row by row gives the row-wise map of the table |
| Seqs.FilterRows | ETL/data_cleaner.py:17 | the row-by-row mask loop computes the filter |
| Seqs.DropDuplicates | ETL/data_cleaner.py:14 | the loop with the set of rows already seen computes `Dedup` |
| Text.Strip | ETL/database.py:51 | `strip()` leaves no whitespace at either end, and is empty exactly when the text is all whitespace |
| Text.StripSlice | ETL/database.py:51 | `strip()` returns a slice of the text and removes only whitespace at its two ends |
| Text.StripIdempotent | ETL/data_cleaner.py:70 | stripping twice is stripping once |
| Text.Split | ETL/database.py:51 | `split(';')` gives at least one piece and no piece contains `;` |
| Text.JoinSplit | ETL/database.py:51 | joining the pieces of `split(d)` with `d` gives the text back |
| Text.SplitJoin | ETL/database.py:51 | splitting a join of separator-free pieces gives the pieces back |
| Text.SplitStatements | ETL/database.py:51 | every statement the splitter returns is non-blank, has no whitespace at either end and contains no `;` |
| Text.SplitStatementsOfJoin | ETL/database.py:51 | a script of statements joined by `;` splits back into exactly those statements, in order |
| Text.ReplaceAllSuffix | ETL/etl_process.py:91 | `replace(pat, rep)` on text whose only occurrence of `pat` is its suffix replaces just that suffix |
| Batching.Batches | ETL/etl_process.py:201-202 | the slices `data[i:i+size]`: each batch is non-empty and at most `size` long; there are none exactly when `data` is empty |
| Batching.BatchesConcat | ETL/etl_process.py:201-203 | the batches concatenated are `data`, in order: every row is sent exactly once |
| Batching.BatchesCount | ETL/etl_process.py:201 | the number of batches is ⌈len/size⌉ |
| Batching.BatchAt | ETL/etl_process.py:201-202 | batch `j` exists exactly when `j*size < len`, and it is the slice `data[j*size : min(j*size+size, len)]` |
| Batching.BatchesFull | ETL/etl_process.py:201-202 | every batch but the last holds exactly `size` rows |
| Batching.BatchRowsFrom | ETL/etl_process.py:201-202 | every row of every batch is a row of `data` |
| GroupSum.AddClicks | ETL/data_cleaner.py:114-115 | adding clicks to a group adds its key to the groups and raises that key's sum by the clicks, leaving every other sum unchanged |
| GroupSum.AddClicksSorted | ETL/data_cleaner.py:114-115 | adding clicks keeps the groups strictly sorted by key |
| GroupSum.Grouped | ETL/data_cleaner.py:114-115 | the groupby-sum has the keys of the rows with no null key, sorted; each group's sum is the sum of its rows' clicks |
| GroupSum.LookupSorted | ETL/data_cleaner.py:114-115 | in sorted groups, a key's recorded sum is that of its single row |
| GroupSum.FilterSorted | ETL/data_cleaner.py:122 | the `sum_click > 0` mask keeps the groups sorted |
| GroupSum.AggregatedSorted | ETL/data_cleaner.py:114-122 | the aggregated table is sorted by key, so no key occurs twice |
| GroupSum.AggregatedSums | ETL/data_cleaner.py:114-122 | each output row carries its group's total, which is positive; every key with a positive total has an output row |
| GroupSum.ToRaw | ETL/data_cleaner.py:114-115 | a cleaned row read back as a raw row has the same key, none of it null, and its sum as its clicks |
| GroupSum.GroupedOfSorted | ETL/data_cleaner.py:114-115 | grouping rows whose keys are already distinct and sorted gives them back |
| GroupSum.AggregatedIdempotent | ETL/data_cleaner.py:108-124 | cleaning the cleaned interaction log again gives it back unchanged |
| Cleaner.CoursesCleaned | ETL/data_cleaner.py:11-22 | cleaned courses all have a positive length and no two are equal |
| Cleaner.CleanCourses | ETL/data_cleaner.py:11-22 | the step-by-step cleaner computes `CoursesCleaned` |
| Cleaner.CoursesCleanedKeeps | ETL/data_cleaner.py:14-20 | an input row is kept exactly when its length is positive (a null length is dropped), and kept rows are unchanged input rows |
| Cleaner.CoursesCleanedIdempotent | ETL/data_cleaner.py:14-17 | cleaning the courses twice is cleaning them once |
| Cleaner.CoursesScenario | ETL/data_cleaner.py:17 | a row of length -1 is dropped and a row of length 30 kept |
| Cleaner.AssessmentsCleaned | ETL/data_cleaner.py:24-40 | every cleaned assessment has a date and a non-negative weight |
| Cleaner.CleanAssessments | ETL/data_cleaner.py:24-40 | the step-by-step cleaner computes `AssessmentsCleaned` |
| Cleaner.AssessmentsCleanedKeeps | ETL/data_cleaner.py:31-38 | every input row with weight ≥ 0 is in the output, its null date replaced by 999 and a present date kept |
| Cleaner.AssessmentsCleanedOnly | ETL/data_cleaner.py:31-38 | every output row is an input row with weight ≥ 0 and its date filled that way |
| Cleaner.FillDateIdempotent | ETL/data_cleaner.py:31 | filling an assessment's date twice is filling it once |
| Cleaner.AssessmentsCleanedNotIdempotent | ETL/data_cleaner.py:27-38 | two assessments that differ only by a null date and a date of 999 are both kept by one cleaning and merged by a second |
| Cleaner.VleCleaned | ETL/data_cleaner.py:42-54 | `clean_vle` has no more rows than its input (its rows are given by `Cleaner.VleCleanedRows`) |
| Cleaner.CleanVle | ETL/data_cleaner.py:42-54 | the step-by-step cleaner computes `VleCleaned` |
| Cleaner.NormalizeWeeksSpec | ETL/data_cleaner.py:48-52 | a null `week_from` becomes 0; a null `week_to` becomes `week_from`; a present `week_to` below the filled `week_from` becomes exactly `week_from`; a `week_to` at or above it is kept; other columns are kept |
| Cleaner.NormalizeWeeksIdempotent | ETL/data_cleaner.py:48-52 | normalising a row's weeks twice is normalising them once |
| Cleaner.VleCleanedRows | ETL/data_cleaner.py:45-52 | the vle table is the distinct input rows with their weeks normalised, so every row has both weeks and `week_to ≥ week_from` |
| Cleaner.VleCleanedNotIdempotent | ETL/data_cleaner.py:45-52 | a two-row table whose rows become equal after filling is changed by a second cleaning |
| Cleaner.CleanStudentInfo | ETL/data_cleaner.py:56-75 | the step-by-step cleaner computes `StudentInfoCleaned` |
| Cleaner.StudentInfoCleaned | ETL/data_cleaner.py:56-75 | `clean_student_info` has no more rows than its input (each row's cleaning is given by `Cleaner.NormalizeInfoSpec`) |
| Cleaner.CleanTextColumns | ETL/data_cleaner.py:66-70 | the loop over the seven text columns applies fill-then-strip to each in turn |
| Cleaner.FillAndStripColumn | ETL/data_cleaner.py:69-70 | one pass fills a null with "Unknown" and then strips that column in every row |
| Cleaner.CleanTextsColumn | ETL/data_cleaner.py:68-70 | after `k` passes, the columns already visited are their value (null read as "Unknown") stripped; the rest are untouched |
| Cleaner.NormalizeInfoSpec | ETL/data_cleaner.py:62-73 | null counts become 0; each text column is its value, null read as "Unknown", stripped, with disability "Y"/"N" recoded to "Yes"/"No"; key columns unchanged |
| Cleaner.DisabilityYesCleaned | ETL/data_cleaner.py:73 | a raw disability "Y" is cleaned to "Yes" |
| Cleaner.CleanedTextStripped | ETL/data_cleaner.py:69-73 | a cleaned text value has no whitespace at either end, and cleaning it again gives it back |
| Cleaner.NormalizeInfoIdempotent | ETL/data_cleaner.py:62-73 | cleaning a student_info row twice is cleaning it once |
| Cleaner.RegistrationsCleaned | ETL/data_cleaner.py:77-90 | the registrations are the distinct input rows, each normalised |
| Cleaner.CleanStudentRegistration | ETL/data_cleaner.py:77-90 | the step-by-step cleaner computes `RegistrationsCleaned` |
| Cleaner.NormalizeRegistrationSpec | ETL/data_cleaner.py:83-88 | a null registration date becomes 0; `date_unregistration` ends null or a number: numbers kept, integer text parsed, "?" and other text null |
| Cleaner.ParseScenario | ETL/data_cleaner.py:87-88 | "-12" parses to -12 and "?" is not numeric |
| Cleaner.NormalizeRegistrationIdempotent | ETL/data_cleaner.py:83-88 | normalising a registration twice is normalising it once |
| Cleaner.StudentAssessmentsCleaned | ETL/data_cleaner.py:92-106 | the cleaned table has no more rows than the input |
| Cleaner.CleanStudentAssessment | ETL/data_cleaner.py:92-106 | the step-by-step cleaner computes `StudentAssessmentsCleaned` |
| Cleaner.StudentAssessmentsCleanedRows | ETL/data_cleaner.py:95-104 | each row is a distinct input row: a present score is clamped into [0, 100] (in-range kept, null stays null); a null submission date becomes 0; `is_banked` is true exactly when the input is non-zero |
| Cleaner.ScoreScenario | ETL/data_cleaner.py:104 | a score of 105 is clamped to 100 |
| Cleaner.ScoreRowIdempotent | ETL/data_cleaner.py:98-104 | filling the submission date and clipping the score twice is doing it once |
| Cleaner.CleanStudentVle | ETL/data_cleaner.py:108-124 | the student_vle cleaner is the sorted groupby-sum with non-positive totals dropped |
| Cleaner.StudentVleScenario | ETL/data_cleaner.py:114-122 | two rows of one key with 3 and 4 clicks aggregate to one row of 7 |
| Storage.InsertValue | ETL/etl_process.py:93-94 | `INSERT IGNORE` of a value: a stored value changes nothing; a new one is appended; earlier entries and ids are kept and the table stays valid |
| Storage.InsertValues | ETL/etl_process.py:92-94 | after the inserts, every value sent is stored; earlier entries are a prefix; new entries hold only values sent |
| Storage.InsertValuesPresent | ETL/etl_process.py:92-94 | inserting values that are all stored already leaves the table unchanged |
| Storage.InsertValuesRerun | ETL/etl_process.py:92-94 | running the same inserts twice leaves the table as one run does |
| Storage.InsertRow | ETL/etl_process.py:110-111 | `INSERT IGNORE` of a fact row: a taken primary key changes nothing; otherwise the row is appended; the table stays valid |
| Storage.Apply | ETL/database.py:69 | a successful statement keeps the set of tables; an insert stores its value or key; a SELECT changes nothing |
| Storage.Select | ETL/etl_process.py:97-98 | a domain SELECT returns one `(id, value)` row per stored entry, in table order |
| Storage.ApplyAll | ETL/database.py:82 | `executemany` keeps the set of tables and a valid store valid |
| Storage.ApplyAllConcat | ETL/database.py:82 | sending `a + b` in one call is sending `a`, then `b` |
| Storage.InsertFactsSucceeds | ETL/etl_process.py:110-111 | rows of the table's width always go in; stored rows stay; every key sent is then stored |
| Storage.InsertFactsPresent | ETL/etl_process.py:110-111 | rows whose keys are all stored already change nothing |
| Storage.InsertFactsRerun | ETL/etl_process.py:110-111 | loading the same fact rows again leaves the store as the first load did |
| Storage.InsertFactsFrame | ETL/database.py:82 | an `executemany` into a fact table changes only that table, and only by appending rows |
| Database.QueryOutcome | ETL/database.py:65-77 | `execute_query` returns True exactly when the call neither raises nor fails, and then commits the statement; on False the store is as before |
| Database.ManyOutcome | ETL/database.py:79-88 | `execute_many` returns True exactly when all rows go in, and then commits them; on False the whole call is rolled back |
| Database.FetchAllOutcome | ETL/database.py:102-112 | `fetch_all` returns the query's rows, or `[]` on an error; the store is unchanged |
| Database.FetchOneOutcome | ETL/database.py:90-100 | `fetch_one` returns the first row, or None on an error or when no row exists; the store is unchanged |
| Database.RunStatements | ETL/database.py:53-55 | True means every statement was executed in order; False means only the statements before the raising one were; with no fault it returns True |
| Database.RunStatementsStops | ETL/database.py:53-55 | once a statement raises, the later statements are not executed |
| Database.ScriptOutcome | ETL/database.py:44-63 | `execute_script` executes all split statements in order and returns True; on False the statements before the failing one stay applied, because each DDL statement commits implicitly; tables are never changed; without a fault it succeeds |
| Database.DatabaseConnection.constructor | ETL/database.py:15-17 | no connection and no cursor |
| Database.DatabaseConnection.Connect | ETL/database.py:19-34 | True exactly when both the connection and its cursor are made; a failed connect leaves `connection` as it was; the cursor is set only on True |
| Database.DatabaseConnection.Disconnect | ETL/database.py:36-42 | closes the cursor if set and the connection only if open; the database is unchanged |
| Database.DatabaseConnection.ExecuteScript | ETL/database.py:44-63 | result and new state are `ScriptOutcome` of the state before |
| Database.DatabaseConnection.ExecuteStatements | ETL/database.py:53-55 | the statement loop leaves the uncommitted state `RunStatements` gives; the committed store is untouched |
| Database.DatabaseConnection.ExecuteQuery | ETL/database.py:65-77 | result and new state are `QueryOutcome` of the state before |
| Database.DatabaseConnection.ExecuteMany | ETL/database.py:79-88 | result and new state are `ManyOutcome` of the state before |
| Database.DatabaseConnection.FetchOne | ETL/database.py:90-100 | result and new state are `FetchOneOutcome` of the state before |
| Database.DatabaseConnection.FetchAll | ETL/database.py:102-112 | result and new state are `FetchAllOutcome` of the state before |
| ETL.IdColumnOfStem | ETL/etl_process.py:91 | `table_name.replace('_domain', '_id')` turns `stem_domain` into `stem_id` when the stem holds no `_d` |
| ETL.DomainTablesNamed | ETL/etl_process.py:75-91 | the id column of each of the nine domain tables is its stem plus `_id` |
| ETL.FieldTableLoaded | ETL/etl_process.py:165-170 | the table a student_info field is looked up in (`field_domain`, or `education_domain` for highest_education) is the domain table loaded at that field's position among the nine |
| ETL.MapFromRows | ETL/etl_process.py:99 | the dict comprehension has every returned value as a key, each mapped to the id of a row holding it |
| ETL.OrdinalOfDomain | ETL/etl_process.py:97-99 | in the map read back from a valid table, a value's ordinal is its stored id, and null exactly when the table lacks the value |
| ETL.DomainMapCovers | ETL/etl_process.py:97-99 | every value of the table maps to its own id |
| ETL.KeptValues | ETL/etl_process.py:88 | only non-null values that are non-blank after stripping are kept, and every such value is kept |
| ETL.InsertEach | ETL/etl_process.py:92-94 | the insert loop touches only its own domain table and keeps the store valid |
| ETL.InsertEachOnly | ETL/etl_process.py:88-94 | whatever the driver does, the loop only appends to the table, and only values that were sent |
| ETL.InsertEachNoFaults | ETL/etl_process.py:92-94 | with no driver fault, the loop is one `INSERT IGNORE` per value, in order |
| ETL.LoadDomainOutcome | ETL/etl_process.py:85-101 | `_load_domain` adds exactly its table to `domain_maps`, leaves the other maps, the fact tables and the schema unchanged, and keeps the store valid |
| ETL.LoadDomainNoFaults | ETL/etl_process.py:85-99 | with no fault, `_load_domain` is `INSERT IGNORE` of the kept values, then the map of the resulting table |
| ETL.LoadDomainCovers | ETL/etl_process.py:92-99 | earlier entries and ids are kept; the map gives every earlier value its id and every kept input value an id |
| ETL.LoadDomainRerun | ETL/etl_process.py:85-99 | loading the same values again leaves the table and the map as they were |
| ETL.DomainLoadsOfFields | ETL/etl_process.py:70-81 | a student_info field's domain is filled from the unique raw values of that same column, under the field's table name |
| ETL.FieldColumnLoaded | ETL/etl_process.py:75-81 | the column each student_info domain is filled from is the field itself |
| ETL.DomainsOutcome | ETL/etl_process.py:75-83 | after the first `n` loads, each of their tables has a map and every table that had one still has; fact tables and schema log unchanged |
| ETL.DomainTablesOutcome | ETL/etl_process.py:65-83 | after `_load_domain_tables` all nine maps are present; fact tables and schema unchanged |
| ETL.OrdinalOfCleaned | ETL/etl_process.py:121-123 | an ordinal cell is the stored id of the cleaned value, and null exactly when the value is null or not in the table |
| ETL.DisabilityOrdinalScenario | ETL/etl_process.py:165-170 | a raw "Y" is cleaned to "Yes", which the domain filled from raw values lacks, so its ordinal is null |
| ETL.RawDisabilityDomain | ETL/etl_process.py:80 | the disability domain filled with the raw codes "Y" and "N" has no id for "Yes" |
| ETL.CourseRow | ETL/etl_process.py:109 | a course parameter tuple has the three columns of `courses` |
| ETL.AssessmentRow | ETL/etl_process.py:121-127 | an assessment tuple has 7 cells; cell 3 is the assessment type and cell 4 its ordinal in `assessment_type_domain` |
| ETL.VleRow | ETL/etl_process.py:143-149 | a vle tuple has 7 cells; cell 3 is the activity type and cell 4 its ordinal in `activity_type_domain` |
| ETL.StudentInfoRow | ETL/etl_process.py:175-187 | a student_info tuple has 19 cells |
| ETL.StudentInfoRowOrdinals | ETL/etl_process.py:164-187 | each of the seven text fields sits at its own position, followed by its ordinal in that field's domain table |
| ETL.RegistrationRow | ETL/etl_process.py:213-218 | a registration tuple has the five columns of `student_registration` |
| ETL.StudentAssessmentRow | ETL/etl_process.py:233-238 | a student_assessment tuple has five cells |
| ETL.StudentVleRow | ETL/etl_process.py:258-263 | a student_vle tuple has six cells |
| ETL.LoadRowsFit | ETL/etl_process.py:103-276 | each loader sends one tuple per cleaned row, every tuple of its table's width |
| ETL.BatchOutcome | ETL/etl_process.py:199-203 | one `execute_many` per batch, in order, each consuming one entry of the fault oracle |
| ETL.ManyFrame | ETL/database.py:79-88 | one `execute_many` into a fact table changes only that table, and only by appending rows |
| ETL.BatchFrame | ETL/etl_process.py:199-203 | a batched load changes only its own table, and only by appending rows |
| ETL.BatchOutcomeSkipsFailed | ETL/etl_process.py:201-203 | every batch is attempted; the table ends as if the batches that did not raise were sent in one call |
| ETL.SentNoFaults | ETL/etl_process.py:201-203 | with no fault, every batch is sent |
| ETL.BatchedLoadNoFaults | ETL/etl_process.py:199-203 | with no fault, loading in batches leaves the table as one `execute_many` of all rows would |
| ETL.ManyLoad | ETL/etl_process.py:110-111 | a loader with one `execute_many` appends to its own table only and leaves `domain_maps` alone |
| ETL.BatchedLoad | ETL/etl_process.py:199-203 | a batched loader appends to its own table only and leaves `domain_maps` alone |
| ETL.SchemaOutcome | ETL/etl_process.py:57-63 | `_create_schema` changes neither the tables nor `domain_maps`; a missing file changes nothing; with no fault the log gains every statement of the script |
| ETL.StopAt | ETL/etl_process.py:28-51 | the number of steps completed is nine exactly when no step raises |
| ETL.StepOutcome | ETL/etl_process.py:29-45 | only the domain step changes `domain_maps`, and after it all nine maps are present |
| ETL.Steps | ETL/etl_process.py:29-45 | from the third step on, all nine domain maps are present |
| ETL.RunSteps | ETL/etl_process.py:29-45 | the nine steps are, in order, schema, domains, courses, assessments, vle, student_info, student_registration, student_assessment, student_vle, each loader with its batch size |
| Rerun.ManyAbsorbs | ETL/etl_process.py:110-111 | with no driver fault, after one `execute_many` every row sent is in the table, or the table cannot take them |
| Rerun.ManyAbsorbedNoop | ETL/etl_process.py:110-111 | an `execute_many` of rows already stored changes nothing, whatever the driver does |
| Rerun.BatchAbsorbs | ETL/etl_process.py:199-203 | with no driver fault, after a batched load every batch is absorbed |
| Rerun.BatchAbsorbedNoop | ETL/etl_process.py:199-203 | a batched load of batches already stored changes nothing, whatever the driver does |
| Rerun.DomainsEstablish | ETL/etl_process.py:65-101 | with no fault, after the domain loads every table is ready, holds its kept values and has its map read back from it |
| Rerun.DomainsNoop | ETL/etl_process.py:65-101 | with no fault, loading settled domain tables again changes neither the tables nor `domain_maps` |
| Rerun.FirstRun | ETL/etl_process.py:20-55 | with no fault, a whole run leaves every domain table settled and every loader's rows stored |
| Rerun.SecondRun | ETL/etl_process.py:20-55 | a run from that state ends with the tables and `domain_maps` unchanged and the schema statements logged once more |
| Rerun.RerunAddsNothing | ETL/etl_process.py:20-55 | running the whole load twice on the same files: the second run adds no row to any table and leaves `domain_maps` as it was; only the log grows, by the schema statements |
| EtlProcess.ETLProcess.constructor | ETL/etl_process.py:14-18 | a fresh unconnected connection object and empty `domain_maps` |
| EtlProcess.ETLProcess.Run | ETL/etl_process.py:20-55 | True exactly when connect succeeds and no step raises; a failed connect changes no table and skips `disconnect`; otherwise the steps run in order until the raising one, then `disconnect` closes cursor and connection |
| EtlProcess.ETLProcess.LoadAll | ETL/etl_process.py:28-51 | the `try` block performs the first `StopAt(crash)` steps and returns True exactly when none raised |
| EtlProcess.ETLProcess.CreateSchema | ETL/etl_process.py:57-63 | runs the script when the file exists and otherwise changes nothing |
| EtlProcess.ETLProcess.LoadDomainTables | ETL/etl_process.py:65-83 | new state is `DomainTablesOutcome` of the state before |
| EtlProcess.ETLProcess.LoadDomain | ETL/etl_process.py:85-101 | new state is `LoadDomainOutcome` of the state before |
| EtlProcess.ETLProcess.LoadCourses | ETL/etl_process.py:103-112 | one `execute_many` of the cleaned courses |
| EtlProcess.ETLProcess.LoadAssessments | ETL/etl_process.py:114-134 | one `execute_many` of the cleaned assessments with their type ordinals |
| EtlProcess.ETLProcess.LoadVle | ETL/etl_process.py:136-156 | one `execute_many` of the cleaned vle rows with their activity ordinals |
| EtlProcess.ETLProcess.LoadStudentInfo | ETL/etl_process.py:158-205 | the 19-column rows with seven ordinals, in batches of 1000 |
| EtlProcess.ETLProcess.LoadStudentRegistration | ETL/etl_process.py:207-225 | one `execute_many` of the cleaned registrations |
| EtlProcess.ETLProcess.LoadStudentAssessment | ETL/etl_process.py:227-250 | the cleaned student assessments in batches of 5000 |
| EtlProcess.ETLProcess.LoadStudentVle | ETL/etl_process.py:252-276 | the aggregated student_vle rows in batches of 10000 |
| EtlProcess.ETLProcess.InsertInBatches | ETL/etl_process.py:199-203 | the batch loop leaves the database as `BatchOutcome` over the slices of the data |

## Left out

- Reading files (`pd.read_csv`, `open(script_path)`, `Path.exists`) is not modelled. Their contents are the `Datasets` parameter.
- Pandas dtype inference, float/NaN handling and `astype(int)` truncation are not modelled. Numeric cells are `Option<int>`. A cast that would raise on NaN (`weight`, `is_banked`) is not modelled.
- `pd.to_numeric(errors='coerce')` is modelled for signed decimal integer literals only. Other numeric spellings it accepts (floats, exponents, surrounding whitespace) become null in the model.
- The real MySQL driver and server are not modelled: collation, type conversion, auto-increment gaps, and DDL contents. The schema script's statements are only logged: their effect on the tables is not modelled, only that a statement executed before a failing one stays executed (MySQL's implicit commit after DDL).
- Connection loss, and `commit`, `rollback`, `close` or `is_connected` raising, are not modelled. Only the `execute`/`executemany`/`fetch` calls, `connect()` and `cursor()` can fail, through the fault oracle.
- `EtlProcess.ETLProcess.Run`: a non-database exception is modelled only at the start of a step, not part-way through one.
- `Database.DatabaseConnection.FetchOne`, `Database.DatabaseConnection.FetchAll`: the optional `params` argument is not modelled, because the loader calls them only without parameters.
- The per-field loop that adds ordinal columns to the student_info data frame (etl_process.py:165-173) is modelled row by row, as the ordinal cells of each 19-tuple (`ETL.StudentInfoRows`).
- The order of rows returned by a SELECT is table order. MySQL gives no such guarantee, but the map built from the rows does not depend on it once values are distinct.
- `Cleaner.Registration` always has a `date_unregistration` column. A registrations file without it is not modelled: the source then skips the conversion (data_cleaner.py:86) and `row.get` sends NULL (etl_process.py:217).
- `GroupSum.StudentVleRaw`: only `date` can be null among the five `groupby` keys. Rows with a null `id_student`, `code_module`, `code_presentation` or `id_site`, which `dropna=True` would also drop (data_cleaner.py:114-115), cannot be represented.
- `print` output, the connection parameters read from the environment, and `tqdm` progress bars are not modelled.
- EDA/, MODELING/, main.py and SQL/database.py are not part of this model.
