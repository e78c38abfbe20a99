/**
 * What `ETLProcess` does, as functions of the state before each step: the
 * domain-table naming, `_load_domain` and `_load_domain_tables`, the rows each
 * loader sends, the batched inserts and the nine steps of `run` in order.
 * The class itself (etl_process.dfy) is proved to follow these functions;
 * the properties of the load are proved about them here.
 */
module ETL {
  import opened Wrappers
  import opened Seqs
  import Text
  import Batching
  import GroupSum
  import Cleaner
  import opened Storage
  import opened Database

  /**
   * The files the loader reads: the schema script `SQL/PhysicalSchema_OULAD.sql`
   * beside the package (None when it is missing) and the seven CSV files of
   * the data directory.
   */
  datatype Datasets = Datasets(
    schema: Option<string>,
    courses: seq<Cleaner.Course>,
    assessments: seq<Cleaner.Assessment>,
    vle: seq<Cleaner.Vle>,
    studentInfo: seq<Cleaner.StudentInfo>,
    registrations: seq<Cleaner.Registration>,
    studentAssessments: seq<Cleaner.StudentAssessmentRaw>,
    studentVle: seq<GroupSum.StudentVleRaw>)

  /** A `domain_maps` entry: stored value to stored id. */
  type DomainMap = map<Value, Value>

  /** The database, the driver's faults and `self.domain_maps`. */
  datatype EtlState = EtlState(env: Env, maps: map<string, DomainMap>)

  // ------------------------------------------------------------ naming

  /** The stems of the nine domain tables, in the order they are loaded. */
  const DomainStems: seq<string> := [
    "gender", "region", "education", "imd_band", "age_band", "disability",
    "final_result", "assessment_type", "activity_type"]

  /** The nine domain tables, in the order `_load_domain_tables` loads them. */
  const DomainTables: seq<string> := [
    "gender_domain", "region_domain", "education_domain", "imd_band_domain", "age_band_domain",
    "disability_domain", "final_result_domain", "assessment_type_domain", "activity_type_domain"]

  /** Each domain table is its stem plus `_domain`. */
  lemma DomainTableOfStem(k: nat)
    requires k < |DomainStems|
    ensures |DomainTables| == |DomainStems|
    ensures DomainTables[k] == DomainStems[k] + "_domain"
  {
    match k
    case 0 => assert DomainTables[0] == "gender" + "_domain";
    case 1 => assert DomainTables[1] == "region" + "_domain";
    case 2 => assert DomainTables[2] == "education" + "_domain";
    case 3 => assert DomainTables[3] == "imd_band" + "_domain";
    case 4 => assert DomainTables[4] == "age_band" + "_domain";
    case 5 => assert DomainTables[5] == "disability" + "_domain";
    case 6 => assert DomainTables[6] == "final_result" + "_domain";
    case 7 => assert DomainTables[7] == "assessment_type" + "_domain";
    case 8 => assert DomainTables[8] == "activity_type" + "_domain";
  }

  /** The column name of a student_info text field. */
  function FieldName(c: Cleaner.TextColumn): string {
    match c
    case Gender => "gender"
    case Region => "region"
    case HighestEducation => "highest_education"
    case ImdBand => "imd_band"
    case AgeBand => "age_band"
    case Disability => "disability"
    case FinalResult => "final_result"
  }

  /** The domain table a student_info field is looked up in. */
  function DomainTableOf(field: string): string {
    if field == "highest_education" then "education_domain" else field + "_domain"
  }

  /** `table_name.replace('_domain', '_id')`. */
  function IdColumn(table: string): string {
    Text.ReplaceAll(table, "_domain", "_id")
  }

  /** No `_d` inside: the text cannot hold `_domain` anywhere but at its end. */
  predicate NoUnderscoreD(s: string) {
    forall i :: 0 <= i < |s| - 1 ==> !(s[i] == '_' && s[i + 1] == 'd')
  }

  /** The id column of `stem_domain` is `stem_id`. */
  lemma IdColumnOfStem(stem: string)
    requires NoUnderscoreD(stem + "_")
    ensures IdColumn(stem + "_domain") == stem + "_id"
  {
    var s := stem + "_domain";
    forall i | 0 <= i < |stem| ensures !Text.OccursAt(s, "_domain", i) {
      assert s[i] == (stem + "_")[i] && s[i + 1] == (stem + "_")[i + 1];
    }
    Text.ReplaceAllSuffix(stem, "_domain", "_id");
  }

  /** The id column of every domain table is its stem plus `_id`. */
  lemma DomainTablesNamed()
    ensures |DomainTables| == |DomainStems|
    ensures forall k :: 0 <= k < |DomainTables| ==> IdColumn(DomainTables[k]) == DomainStems[k] + "_id"
  {
    forall k | 0 <= k < |DomainTables| ensures IdColumn(DomainTables[k]) == DomainStems[k] + "_id" {
      StemPlain(k);
      DomainTableOfStem(k);
      IdColumnOfStem(DomainStems[k]);
    }
  }

  lemma StemPlain(k: nat)
    requires k < |DomainStems|
    ensures NoUnderscoreD(DomainStems[k] + "_")
  {
    match k
    case 0 => assert NoUnderscoreD("gender_");
    case 1 => assert NoUnderscoreD("region_");
    case 2 => assert NoUnderscoreD("education_");
    case 3 => assert NoUnderscoreD("imd_band_");
    case 4 => assert NoUnderscoreD("age_band_");
    case 5 => assert NoUnderscoreD("disability_");
    case 6 => assert NoUnderscoreD("final_result_");
    case 7 => assert NoUnderscoreD("assessment_type_");
    case 8 => assert NoUnderscoreD("activity_type_");
  }

  /**
   * The table each student_info field is looked up in is one of the nine
   * loaded, and the one loaded from that same column of studentInfo.csv.
   */
  lemma FieldTableLoaded(c: Cleaner.TextColumn)
    ensures DomainTableOf(FieldName(c)) == DomainTables[Cleaner.ColumnIndex(c)]
  {
  }

  // ---------------------------------------------------------- domain maps

  /** `{row[1]: row[0] for row in results}`: a later row overwrites an earlier one. */
  function MapFromRows(rows: seq<Row>): (m: DomainMap)
    requires forall k :: 0 <= k < |rows| ==> |rows[k]| >= 2
    ensures forall k :: 0 <= k < |rows| ==> rows[k][1] in m
    ensures forall v :: v in m ==> exists k :: 0 <= k < |rows| && rows[k][1] == v && m[v] == rows[k][0]
    decreases |rows|
  {
    if rows == [] then map[]
    else
      var init := rows[..|rows| - 1];
      var m := MapFromRows(init);
      var last := rows[|rows| - 1];
      assert forall k :: 0 <= k < |init| ==> init[k] == rows[k];
      m[last[1] := last[0]]
  }

  /** `series.map(domain_map)`: the id of a stored value, null for any other. */
  function Ordinal(m: DomainMap, v: Value): Value {
    if v in m then m[v] else Null
  }

  /** The map read back from a valid domain table. */
  function DomainMapOf(d: DomainTable): DomainMap {
    MapFromRows(Seqs.Map(EntryRow, d.entries))
  }

  /**
   * The ordinal of a text is the id stored with it, and null exactly when the
   * table does not hold that text.
   */
  lemma {:induction false} OrdinalOfDomain(d: DomainTable, v: string)
    requires ValidDomain(d)
    ensures Ordinal(DomainMapOf(d), Str(v)) == Null <==> !HasValue(d, v)
    ensures forall k :: 0 <= k < |d.entries| && d.entries[k].value == v ==>
      Ordinal(DomainMapOf(d), Str(v)) == Int(d.entries[k].id)
  {
    var rows := Seqs.Map(EntryRow, d.entries);
    var m := DomainMapOf(d);
    if Str(v) in m {
      var k :| 0 <= k < |rows| && rows[k][1] == Str(v) && m[Str(v)] == rows[k][0];
      assert d.entries[k].value == v;
      forall j | 0 <= j < |d.entries| && d.entries[j].value == v
        ensures Ordinal(m, Str(v)) == Int(d.entries[j].id)
      {
        assert j == k;
      }
    } else {
      forall j | 0 <= j < |d.entries| ensures d.entries[j].value != v {
        assert rows[j][1] == Str(d.entries[j].value);
      }
    }
  }

  /** Every value of the table is a key of the map read back, with its id. */
  lemma DomainMapCovers(d: DomainTable)
    requires ValidDomain(d)
    ensures forall k :: 0 <= k < |d.entries| ==> Ordinal(DomainMapOf(d), Str(d.entries[k].value)) == Int(d.entries[k].id)
  {
    forall k | 0 <= k < |d.entries|
      ensures Ordinal(DomainMapOf(d), Str(d.entries[k].value)) == Int(d.entries[k].id)
    {
      OrdinalOfDomain(d, d.entries[k].value);
    }
  }

  // ------------------------------------------------------------ _load_domain

  /** `[v for v in values if pd.notna(v) and str(v).strip()]`. */
  function KeptValues(values: seq<Option<string>>): (r: seq<string>)
    ensures forall k :: 0 <= k < |r| ==> Text.Strip(r[k]) != [] && Some(r[k]) in values
    ensures forall k :: 0 <= k < |values| && values[k].Some? && Text.Strip(values[k].value) != [] ==>
      values[k].value in r
    decreases |values|
  {
    if values == [] then []
    else
      var init := values[..|values| - 1];
      var v := values[|values| - 1];
      assert forall k :: 0 <= k < |init| ==> init[k] == values[k];
      if v.Some? && Text.Strip(v.value) != [] then KeptValues(init) + [v.value] else KeptValues(init)
  }

  /** The insert loop of `_load_domain`: one `execute_query` per value, results ignored. */
  function InsertEach(e: Env, table: string, column: string, vs: seq<string>): (r: Env)
    ensures r.store.domains.Keys == e.store.domains.Keys && r.store.facts == e.store.facts
    ensures r.store.log == e.store.log
    ensures forall t :: t in e.store.domains && t != table ==> r.store.domains[t] == e.store.domains[t]
    ensures ValidStore(e.store) ==> ValidStore(r.store)
    decreases |vs|
  {
    if vs == [] then e
    else QueryOutcome(InsertEach(e, table, column, vs[..|vs| - 1]), InsertDomainValue(table, column), [Str(vs[|vs| - 1])]).1
  }

  /**
   * Whatever the driver does, the inserts only append to the table, and only
   * values that were sent.
   */
  lemma {:induction false} InsertEachOnly(e: Env, table: string, column: string, vs: seq<string>)
    requires table in e.store.domains
    ensures var d := e.store.domains[table]; var d' := InsertEach(e, table, column, vs).store.domains[table];
      d.entries <= d'.entries &&
      forall k :: |d.entries| <= k < |d'.entries| ==> d'.entries[k].value in vs
    decreases |vs|
  {
    if vs != [] {
      var init := vs[..|vs| - 1];
      InsertEachOnly(e, table, column, init);
      var m := InsertEach(e, table, column, init);
      var d := e.store.domains[table];
      var d' := InsertEach(e, table, column, vs).store.domains[table];
      var dm := m.store.domains[table];
      forall k | |d.entries| <= k < |d'.entries| ensures d'.entries[k].value in vs {
        if k < |dm.entries| {
          assert d'.entries[k] == dm.entries[k];
          assert dm.entries[k].value in init;
        } else {
          assert d' == InsertValue(dm, vs[|vs| - 1]);
        }
      }
    }
  }

  /** With no driver fault, the loop is one `INSERT IGNORE` per value, in order. */
  lemma {:induction false} InsertEachNoFaults(e: Env, table: string, column: string, vs: seq<string>)
    requires true !in e.faults
    requires table in e.store.domains && e.store.domains[table].valueColumn == column
    ensures var r := InsertEach(e, table, column, vs);
      true !in r.faults &&
      r.store == e.store.(domains := e.store.domains[table := InsertValues(e.store.domains[table], vs)])
    decreases |vs|
  {
    if vs != [] {
      var init := vs[..|vs| - 1];
      InsertEachNoFaults(e, table, column, init);
      var m := InsertEach(e, table, column, init);
      var d := InsertValues(e.store.domains[table], init);
      assert InsertValue(d, vs[|vs| - 1]) == InsertValues(e.store.domains[table], vs);
      InsertOneNoFaults(m, table, column, vs[|vs| - 1]);
      assert m.store.domains[table := InsertValue(d, vs[|vs| - 1])]
        == e.store.domains[table := InsertValues(e.store.domains[table], vs)];
    }
  }

  /** With no driver fault, one `INSERT IGNORE` of the loop adds the value to the table. */
  lemma InsertOneNoFaults(m: Env, table: string, column: string, v: string)
    requires true !in m.faults
    requires table in m.store.domains && m.store.domains[table].valueColumn == column
    ensures QueryOutcome(m, InsertDomainValue(table, column), [Str(v)]).1 ==
      Env(m.store.(domains := m.store.domains[table := InsertValue(m.store.domains[table], v)]), Rest(m.faults))
    ensures true !in Rest(m.faults)
  {
    assert !Raises(m.faults);
  }

  /**
   * `_load_domain`: insert the kept values, read the whole table back, and
   * store the value-to-id map under the table's name.
   */
  function LoadDomainOutcome(st: EtlState, table: string, column: string, values: seq<Option<string>>): (r: EtlState)
    ensures r.maps.Keys == st.maps.Keys + {table}
    ensures forall t :: t in st.maps && t != table ==> r.maps[t] == st.maps[t]
    ensures r.env.store.facts == st.env.store.facts && r.env.store.log == st.env.store.log
    ensures ValidStore(st.env.store) ==> ValidStore(r.env.store)
  {
    var e := InsertEach(st.env, table, column, KeptValues(values));
    var fetched := FetchAllOutcome(e, SelectDomain(table, IdColumn(table), column));
    EtlState(fetched.1, st.maps[table := MapFromRows(fetched.0)])
  }

  /** The table is the one the schema defines for `_load_domain`'s arguments. */
  predicate DomainReady(s: Store, table: string, column: string) {
    table in s.domains && ValidDomain(s.domains[table]) &&
    s.domains[table].valueColumn == column && s.domains[table].idColumn == IdColumn(table)
  }

  /** With no driver fault, `fetch_all` of a ready domain table returns one `(id, value)` row per entry. */
  lemma FetchDomainNoFaults(e: Env, table: string, column: string)
    requires !Raises(e.faults) && DomainReady(e.store, table, column)
    ensures FetchAllOutcome(e, SelectDomain(table, IdColumn(table), column))
      == (Seqs.Map(EntryRow, e.store.domains[table].entries), Env(e.store, Rest(e.faults)))
  {
  }

  /**
   * With no driver fault, `_load_domain` is `INSERT IGNORE` of the kept
   * values followed by reading the table back; nothing else changes.
   */
  lemma {:induction false} LoadDomainNoFaults(st: EtlState, table: string, column: string, values: seq<Option<string>>)
    requires true !in st.env.faults && DomainReady(st.env.store, table, column)
    ensures var r := LoadDomainOutcome(st, table, column, values);
      var d' := InsertValues(st.env.store.domains[table], KeptValues(values));
      true !in r.env.faults &&
      r.env.store == st.env.store.(domains := st.env.store.domains[table := d']) &&
      r.maps == st.maps[table := DomainMapOf(d')] &&
      DomainReady(r.env.store, table, column)
  {
    var vs := KeptValues(values);
    InsertEachNoFaults(st.env, table, column, vs);
    var e := InsertEach(st.env, table, column, vs);
    FetchDomainNoFaults(e, table, column);
  }

  /**
   * With no driver fault, the table keeps every earlier row and id and gains
   * the kept values it lacked; the map then gives every earlier value and
   * every kept value its stored id.
   */
  lemma LoadDomainCovers(st: EtlState, table: string, column: string, values: seq<Option<string>>)
    requires true !in st.env.faults && DomainReady(st.env.store, table, column)
    ensures var r := LoadDomainOutcome(st, table, column, values);
      var d := st.env.store.domains[table];
      d.entries <= r.env.store.domains[table].entries &&
      (forall k :: 0 <= k < |d.entries| ==> Ordinal(r.maps[table], Str(d.entries[k].value)) == Int(d.entries[k].id)) &&
      (forall k :: 0 <= k < |values| && values[k].Some? && Text.Strip(values[k].value) != [] ==>
         Ordinal(r.maps[table], Str(values[k].value)) != Null)
  {
    var vs := KeptValues(values);
    var d := st.env.store.domains[table];
    var d' := InsertValues(d, vs);
    LoadDomainNoFaults(st, table, column, values);
    var m := DomainMapOf(d');
    DomainMapCovers(d');
    forall k | 0 <= k < |d.entries| ensures Ordinal(m, Str(d.entries[k].value)) == Int(d.entries[k].id) {
      assert d'.entries[k] == d.entries[k];
    }
    forall k | 0 <= k < |values| && values[k].Some? && Text.Strip(values[k].value) != []
      ensures Ordinal(m, Str(values[k].value)) != Null
    {
      var i :| 0 <= i < |vs| && vs[i] == values[k].value;
      OrdinalOfDomain(d', vs[i]);
    }
  }

  /** Writing back the value a key already has changes nothing. */
  lemma UpdateSame<K, V>(m: map<K, V>, k: K)
    requires k in m
    ensures m[k := m[k]] == m
  {
  }

  /** Loading the same values again, with no driver fault, leaves the database and the map as they were. */
  lemma LoadDomainRerun(st: EtlState, table: string, column: string, values: seq<Option<string>>)
    requires true !in st.env.faults && DomainReady(st.env.store, table, column)
    ensures var r := LoadDomainOutcome(st, table, column, values);
      var r2 := LoadDomainOutcome(r, table, column, values);
      r2.env.store == r.env.store && r2.maps == r.maps
  {
    var vs := KeptValues(values);
    var r := LoadDomainOutcome(st, table, column, values);
    LoadDomainNoFaults(st, table, column, values);
    var d' := InsertValues(st.env.store.domains[table], vs);
    assert r.env.store.domains[table] == d';
    LoadDomainNoFaults(r, table, column, values);
    InsertValuesRerun(st.env.store.domains[table], vs);
    assert InsertValues(d', vs) == d';
    UpdateSame(r.env.store.domains, table);
    UpdateSame(r.maps, table);
  }

  // ------------------------------------------------------ _load_domain_tables

  /** One `_load_domain` call: table, column, and the raw values. */
  datatype DomainLoad = DomainLoad(table: string, column: string, values: seq<Option<string>>)

  /** `series.unique()`: the distinct values, nulls included, in order of first appearance. */
  function Unique<T(==)>(s: seq<T>): seq<T> { Dedup(s) }

  /** The columns the nine domain tables are filled from. */
  const DomainColumns: seq<string> := [
    "gender", "region", "highest_education", "imd_band", "age_band", "disability",
    "final_result", "assessment_type", "activity_type"]

  /**
   * The raw values of domain `k`: the seven text columns of studentInfo.csv,
   * then assessment_type of assessments.csv and activity_type of vle.csv.
   */
  function DomainValues(ds: Datasets, k: nat): seq<Option<string>>
    requires k < |DomainTables|
  {
    if k < |Cleaner.TextColumns| then
      Unique(Map((s: Cleaner.StudentInfo) => Cleaner.Get(s, Cleaner.TextColumns[k]), ds.studentInfo))
    else if k == 7 then Unique(Map((a: Cleaner.Assessment) => a.assessmentType, ds.assessments))
    else Unique(Map((v: Cleaner.Vle) => v.activityType, ds.vle))
  }

  /** The nine calls of `_load_domain_tables`, in order. */
  function DomainLoads(ds: Datasets): (r: seq<DomainLoad>)
    ensures |r| == |DomainTables|
    ensures forall k :: 0 <= k < |r| ==> r[k] == DomainLoad(DomainTables[k], DomainColumns[k], DomainValues(ds, k))
  {
    seq(|DomainTables|, k requires 0 <= k < |DomainTables| => DomainLoad(DomainTables[k], DomainColumns[k], DomainValues(ds, k)))
  }

  /**
   * Each student_info field's domain table is the one filled from that same
   * column of studentInfo.csv, under the field's own name.
   */
  lemma DomainLoadsOfFields(ds: Datasets, c: Cleaner.TextColumn)
    ensures var l := DomainLoads(ds)[Cleaner.ColumnIndex(c)];
      l.column == FieldName(c) && l.table == DomainTableOf(FieldName(c)) &&
      l.values == Unique(Map((s: Cleaner.StudentInfo) => Cleaner.Get(s, c), ds.studentInfo))
  {
    var i := Cleaner.ColumnIndex(c);
    var l := DomainLoads(ds)[i];
    assert l == DomainLoad(DomainTables[i], DomainColumns[i], DomainValues(ds, i));
    FieldTableLoaded(c);
    FieldColumnLoaded(c);
  }

  /** The column a student_info field's domain is filled from is the field itself. */
  lemma FieldColumnLoaded(c: Cleaner.TextColumn)
    ensures DomainColumns[Cleaner.ColumnIndex(c)] == FieldName(c)
  {
    match c
    case Gender =>
    case Region =>
    case HighestEducation =>
    case ImdBand =>
    case AgeBand =>
    case Disability =>
    case FinalResult =>
  }

  /** The first `n` domain loads. */
  function DomainsOutcome(st: EtlState, loads: seq<DomainLoad>, n: nat): (r: EtlState)
    requires n <= |loads|
    ensures forall t :: t in st.maps ==> t in r.maps
    ensures forall k :: 0 <= k < n ==> loads[k].table in r.maps
    ensures r.env.store.facts == st.env.store.facts && r.env.store.log == st.env.store.log
    ensures ValidStore(st.env.store) ==> ValidStore(r.env.store)
  {
    if n == 0 then st
    else
      var m := DomainsOutcome(st, loads, n - 1);
      var l := loads[n - 1];
      var r := LoadDomainOutcome(m, l.table, l.column, l.values);
      assert m.maps.Keys <= r.maps.Keys && l.table in r.maps;
      r
  }

  /** All nine `domain_maps` entries are present. */
  predicate MapsReady(maps: map<string, DomainMap>) {
    forall k :: 0 <= k < |DomainTables| ==> DomainTables[k] in maps
  }

  /** `_load_domain_tables`: the nine loads in order. */
  function DomainTablesOutcome(st: EtlState, ds: Datasets): (r: EtlState)
    ensures MapsReady(r.maps)
    ensures r.env.store.facts == st.env.store.facts && r.env.store.log == st.env.store.log
    ensures ValidStore(st.env.store) ==> ValidStore(r.env.store)
  {
    DomainsOutcome(st, DomainLoads(ds), |DomainTables|)
  }

  // -------------------------------------------------------------- fact rows

  /** A nullable text cell, as the driver sends it. */
  function TextCell(v: Option<string>): Value {
    match v
    case None => Null
    case Some(s) => Str(s)
  }

  /** A nullable integer cell, as the driver sends it. */
  function IntCell(v: Option<int>): Value {
    match v
    case None => Null
    case Some(n) => Int(n)
  }

  /** A `date_unregistration` cell, as the driver sends it. */
  function CellValue(c: Cleaner.Cell): Value {
    match c
    case Missing => Null
    case Number(n) => Int(n)
    case Text(s) => Str(s)
  }

  /**
   * `self.domain_maps[table]`.  The loaders that look a table up run only
   * after `_load_domain_tables` has stored all nine (their methods require it).
   */
  function MapOf(maps: map<string, DomainMap>, table: string): (m: DomainMap)
    ensures table in maps ==> m == maps[table]
  {
    if table in maps then maps[table] else map[]
  }

  /** `df[column].map(domain_map)` on one cleaned value: the stored id, or null. */
  function OrdinalCell(m: DomainMap, v: Option<string>): Value {
    Ordinal(m, TextCell(v))
  }

  /** `df.to_records(index=False)`: `(code_module, code_presentation, length)`. */
  function CourseRow(c: Cleaner.Course): (r: Row)
    ensures |r| == 3
  {
    [Str(c.codeModule), Str(c.codePresentation), IntCell(c.length)]
  }

  /**
   * The seven parameters of the assessments insert: `assessment_type`, then
   * its ordinal, the id `m` gives that same value.
   */
  function AssessmentRow(m: DomainMap, a: Cleaner.Assessment): (r: Row)
    ensures |r| == 7 && r[3] == TextCell(a.assessmentType) && r[4] == Ordinal(m, r[3])
  {
    [Int(a.idAssessment), Str(a.codeModule), Str(a.codePresentation),
     TextCell(a.assessmentType), OrdinalCell(m, a.assessmentType),
     IntCell(a.date), Int(a.weight)]
  }

  /**
   * The seven parameters of the vle insert: `activity_type`, then its
   * ordinal, the id `m` gives that same value.
   */
  function VleRow(m: DomainMap, v: Cleaner.Vle): (r: Row)
    ensures |r| == 7 && r[3] == TextCell(v.activityType) && r[4] == Ordinal(m, r[3])
  {
    [Int(v.idSite), Str(v.codeModule), Str(v.codePresentation),
     TextCell(v.activityType), OrdinalCell(m, v.activityType),
     IntCell(v.weekFrom), IntCell(v.weekTo)]
  }

  /** `{field}_ordinal`: the field's cleaned value looked up in its own domain table. */
  function FieldOrdinal(maps: map<string, DomainMap>, s: Cleaner.StudentInfo, c: Cleaner.TextColumn): Value {
    OrdinalCell(MapOf(maps, DomainTableOf(FieldName(c))), Cleaner.Get(s, c))
  }

  /** A student_info text field as sent: its value, then its ordinal. */
  function FieldCells(maps: map<string, DomainMap>, s: Cleaner.StudentInfo, c: Cleaner.TextColumn): (Value, Value) {
    (TextCell(Cleaner.Get(s, c)), FieldOrdinal(maps, s, c))
  }

  /** The value and ordinal cells of several text fields, in the order given. */
  function FieldsCells(maps: map<string, DomainMap>, s: Cleaner.StudentInfo, cs: seq<Cleaner.TextColumn>): Row {
    Seqs.FlatPairs((c: Cleaner.TextColumn) => FieldCells(maps, s, c), cs)
  }

  /**
   * The nineteen parameters of the student_info insert: the key, the five
   * text fields before the two counts, the counts, then the last two text
   * fields, each text field followed by its ordinal.
   */
  function StudentInfoRow(maps: map<string, DomainMap>, s: Cleaner.StudentInfo): (r: Row)
    ensures |r| == 19
  {
    [Int(s.idStudent), Str(s.codeModule), Str(s.codePresentation)] +
    FieldsCells(maps, s, Cleaner.TextColumns[..5]) +
    [IntCell(s.numOfPrevAttempts), IntCell(s.studiedCredits)] +
    FieldsCells(maps, s, Cleaner.TextColumns[5..])
  }

  /** Where a text field sits among the student_info parameters; its ordinal follows it. */
  function ValuePosition(c: Cleaner.TextColumn): (i: nat)
    ensures 3 <= i && i + 1 < 19
  {
    var k := Cleaner.ColumnIndex(c);
    if k < 5 then 3 + 2 * k else 5 + 2 * k
  }

  /** The cells of the five text fields before the counts sit from position 3 on. */
  lemma StudentInfoRowBefore(maps: map<string, DomainMap>, s: Cleaner.StudentInfo, k: nat)
    requires k < 5
    ensures var r := StudentInfoRow(maps, s);
      var f := FieldCells(maps, s, Cleaner.TextColumns[k]);
      r[3 + 2 * k] == f.0 && r[4 + 2 * k] == f.1
  {
    var head: Row := [Int(s.idStudent), Str(s.codeModule), Str(s.codePresentation)];
    var before := FieldsCells(maps, s, Cleaner.TextColumns[..5]);
    var counts: Row := [IntCell(s.numOfPrevAttempts), IntCell(s.studiedCredits)];
    var after := FieldsCells(maps, s, Cleaner.TextColumns[5..]);
    assert Cleaner.TextColumns[..5][k] == Cleaner.TextColumns[k];
    Seqs.IndexSecond(head, before, counts, after, 3 + 2 * k);
    Seqs.IndexSecond(head, before, counts, after, 4 + 2 * k);
  }

  /** The cells of the two text fields after the counts sit from position 15 on. */
  lemma StudentInfoRowAfter(maps: map<string, DomainMap>, s: Cleaner.StudentInfo, k: nat)
    requires 5 <= k < 7
    ensures var r := StudentInfoRow(maps, s);
      var f := FieldCells(maps, s, Cleaner.TextColumns[k]);
      r[5 + 2 * k] == f.0 && r[6 + 2 * k] == f.1
  {
    var head: Row := [Int(s.idStudent), Str(s.codeModule), Str(s.codePresentation)];
    var before := FieldsCells(maps, s, Cleaner.TextColumns[..5]);
    var counts: Row := [IntCell(s.numOfPrevAttempts), IntCell(s.studiedCredits)];
    var after := FieldsCells(maps, s, Cleaner.TextColumns[5..]);
    assert Cleaner.TextColumns[5..][k - 5] == Cleaner.TextColumns[k];
    Seqs.IndexFourth(head, before, counts, after, 5 + 2 * k);
    Seqs.IndexFourth(head, before, counts, after, 6 + 2 * k);
  }

  /**
   * Each of the seven text fields of a student_info row is sent followed by
   * its ordinal: the id its own domain table's map gives that same value.
   */
  lemma StudentInfoRowOrdinals(maps: map<string, DomainMap>, s: Cleaner.StudentInfo, c: Cleaner.TextColumn)
    ensures var r := StudentInfoRow(maps, s);
      r[ValuePosition(c)] == TextCell(Cleaner.Get(s, c)) &&
      r[ValuePosition(c) + 1] == Ordinal(MapOf(maps, DomainTableOf(FieldName(c))), r[ValuePosition(c)])
  {
    var k := Cleaner.ColumnIndex(c);
    if k < 5 {
      StudentInfoRowBefore(maps, s, k);
    } else {
      StudentInfoRowAfter(maps, s, k);
    }
  }

  /** The five parameters of the student_registration insert. */
  function RegistrationRow(r: Cleaner.Registration): (row: Row)
    ensures |row| == 5
  {
    [Int(r.idStudent), Str(r.codeModule), Str(r.codePresentation),
     IntCell(r.dateRegistration), CellValue(r.dateUnregistration)]
  }

  /** The five parameters of the student_assessment insert. */
  function StudentAssessmentRow(a: Cleaner.StudentAssessment): (r: Row)
    ensures |r| == 5
  {
    [Int(a.idAssessment), Int(a.idStudent), IntCell(a.dateSubmitted), Bool(a.isBanked), IntCell(a.score)]
  }

  /** The six parameters of the student_vle insert. */
  function StudentVleRow(v: GroupSum.StudentVle): (r: Row)
    ensures |r| == 6
  {
    [Int(v.key.idStudent), Str(v.key.codeModule), Str(v.key.codePresentation),
     Int(v.key.idSite), Int(v.key.date), Int(v.sumClick)]
  }

  /** The rows each loader sends: its cleaned table, one parameter tuple per row. */
  function CourseRows(ds: Datasets): seq<Row> {
    Map(CourseRow, Cleaner.CoursesCleaned(ds.courses))
  }

  function AssessmentRows(maps: map<string, DomainMap>, ds: Datasets): seq<Row> {
    var m := MapOf(maps, "assessment_type_domain");
    Map((a: Cleaner.Assessment) => AssessmentRow(m, a), Cleaner.AssessmentsCleaned(ds.assessments))
  }

  function VleRows(maps: map<string, DomainMap>, ds: Datasets): seq<Row> {
    var m := MapOf(maps, "activity_type_domain");
    Map((v: Cleaner.Vle) => VleRow(m, v), Cleaner.VleCleaned(ds.vle))
  }

  function StudentInfoRows(maps: map<string, DomainMap>, ds: Datasets): seq<Row> {
    Map((s: Cleaner.StudentInfo) => StudentInfoRow(maps, s), Cleaner.StudentInfoCleaned(ds.studentInfo))
  }

  function RegistrationRows(ds: Datasets): seq<Row> {
    Map(RegistrationRow, Cleaner.RegistrationsCleaned(ds.registrations))
  }

  function StudentAssessmentRows(ds: Datasets): seq<Row> {
    Map(StudentAssessmentRow, Cleaner.StudentAssessmentsCleaned(ds.studentAssessments))
  }

  function StudentVleRows(ds: Datasets): seq<Row> {
    Map(StudentVleRow, GroupSum.Aggregated(ds.studentVle))
  }

  /**
   * Each loader sends one parameter tuple per row of its cleaned table, each
   * as wide as the insert's column list.
   */
  lemma LoadRowsFit(maps: map<string, DomainMap>, ds: Datasets)
    ensures var r := CourseRows(ds);
      |r| == |Cleaner.CoursesCleaned(ds.courses)| && forall i :: 0 <= i < |r| ==> |r[i]| == 3
    ensures var r := AssessmentRows(maps, ds);
      |r| == |Cleaner.AssessmentsCleaned(ds.assessments)| && forall i :: 0 <= i < |r| ==> |r[i]| == 7
    ensures var r := VleRows(maps, ds);
      |r| == |Cleaner.VleCleaned(ds.vle)| && forall i :: 0 <= i < |r| ==> |r[i]| == 7
    ensures var r := StudentInfoRows(maps, ds);
      |r| == |Cleaner.StudentInfoCleaned(ds.studentInfo)| && forall i :: 0 <= i < |r| ==> |r[i]| == 19
    ensures var r := RegistrationRows(ds);
      |r| == |Cleaner.RegistrationsCleaned(ds.registrations)| && forall i :: 0 <= i < |r| ==> |r[i]| == 5
    ensures var r := StudentAssessmentRows(ds);
      |r| == |Cleaner.StudentAssessmentsCleaned(ds.studentAssessments)| && forall i :: 0 <= i < |r| ==> |r[i]| == 5
    ensures var r := StudentVleRows(ds);
      |r| == |GroupSum.Aggregated(ds.studentVle)| && forall i :: 0 <= i < |r| ==> |r[i]| == 6
  {
  }

  /**
   * An ordinal column holds the id the domain table stores for the cleaned
   * value, and null exactly when the table does not hold that value.
   */
  lemma OrdinalOfCleaned(d: DomainTable, v: Option<string>)
    requires ValidDomain(d)
    ensures OrdinalCell(DomainMapOf(d), v) == Null <==> v.None? || !HasValue(d, v.value)
    ensures forall k :: 0 <= k < |d.entries| && v == Some(d.entries[k].value) ==>
      OrdinalCell(DomainMapOf(d), v) == Int(d.entries[k].id)
  {
    if v.Some? {
      OrdinalOfDomain(d, v.value);
    }
  }

  /**
   * The raw `"Y"` of disability is cleaned to `"Yes"`, a value the domain
   * table, filled from the raw file, does not hold: its ordinal is null.
   */
  lemma DisabilityOrdinalScenario(raw: Cleaner.StudentInfo)
    requires raw.disability == Some("Y")
    ensures var d := DomainTable("disability_id", "disability", [Entry(1, "Y"), Entry(2, "N")], 3);
      var maps := map["disability_domain" := DomainMapOf(d)];
      var n := Cleaner.NormalizeInfo(raw);
      n.disability == Some("Yes") && FieldOrdinal(maps, n, Cleaner.Disability) == Null
  {
    var d := DomainTable("disability_id", "disability", [Entry(1, "Y"), Entry(2, "N")], 3);
    Cleaner.DisabilityYesCleaned(raw);
    assert DomainTableOf(FieldName(Cleaner.Disability)) == "disability_domain";
    RawDisabilityDomain(d);
  }

  /** The disability table filled from the raw codes has no id for `"Yes"`. */
  lemma RawDisabilityDomain(d: DomainTable)
    requires d == DomainTable("disability_id", "disability", [Entry(1, "Y"), Entry(2, "N")], 3)
    ensures Ordinal(DomainMapOf(d), Str("Yes")) == Null
  {
    assert ValidDomain(d);
    assert !HasValue(d, "Yes");
    OrdinalOfDomain(d, "Yes");
  }

  // ---------------------------------------------------------- batch loading

  /** `execute_many` once per batch, in order; each call's result is ignored. */
  function BatchOutcome(e: Env, q: Query, bs: seq<seq<Row>>): (r: Env)
    ensures r.faults == Drop(e.faults, |bs|)
    decreases |bs|
  {
    if bs == [] then e
    else ManyOutcome(BatchOutcome(e, q, bs[..|bs| - 1]), q, bs[|bs| - 1]).1
  }

  /** One more batch is one more `execute_many`. */
  lemma BatchOutcomeSnoc(e: Env, q: Query, bs: seq<seq<Row>>, b: seq<Row>)
    ensures BatchOutcome(e, q, bs + [b]) == ManyOutcome(BatchOutcome(e, q, bs), q, b).1
  {
    assert (bs + [b])[..|bs|] == bs;
  }

  /** Whether the `k`-th driver call from here raises. */
  predicate FaultAt(fs: seq<bool>, k: nat) {
    k < |fs| && fs[k]
  }

  /** The oracle once `n` driver calls have been made. */
  function Drop(fs: seq<bool>, n: nat): (r: seq<bool>)
    ensures |r| == if n <= |fs| then |fs| - n else 0
    ensures forall k :: 0 <= k < |r| ==> r[k] == fs[n + k]
  {
    if n <= |fs| then fs[n..] else []
  }

  /** The rows of the batches whose call did not raise, in order. */
  function Sent(bs: seq<seq<Row>>, fs: seq<bool>): seq<Row>
    decreases |bs|
  {
    if bs == [] then []
    else Sent(bs[..|bs| - 1], fs) + (if FaultAt(fs, |bs| - 1) then [] else bs[|bs| - 1])
  }

  /** A driver call that raises is the only way a fault is used up. */
  lemma DropQuiet(fs: seq<bool>, n: nat)
    requires true !in fs
    ensures true !in Drop(fs, n)
  {
    var r := Drop(fs, n);
    forall k | 0 <= k < |r| ensures !r[k] {
      assert r[k] == fs[n + k];
    }
  }

  /** One `execute_many` of fact rows into `t` appends to `t` at most. */
  lemma ManyFrame(e: Env, t: string, rows: seq<Row>)
    ensures GrowsOnly(e.store, ManyOutcome(e, InsertFacts(t), rows).1.store, t)
  {
    InsertFactsFrame(e.store, t, rows);
  }

  /** Whatever the driver does, a batched load into `t` appends to `t` at most. */
  lemma {:induction false} BatchFrame(e: Env, t: string, bs: seq<seq<Row>>)
    ensures GrowsOnly(e.store, BatchOutcome(e, InsertFacts(t), bs).store, t)
    decreases |bs|
  {
    if bs != [] {
      var init := bs[..|bs| - 1];
      BatchFrame(e, t, init);
      var m := BatchOutcome(e, InsertFacts(t), init);
      ManyFrame(m, t, bs[|bs| - 1]);
      GrowsOnlyTrans(e.store, m.store, BatchOutcome(e, InsertFacts(t), bs).store, t);
    }
  }

  /** Every row has the width of table `t`. */
  predicate Fits(s: Store, t: string, rows: seq<Row>) {
    t in s.facts && forall i :: 0 <= i < |rows| ==> |rows[i]| == s.facts[t].columns
  }

  lemma {:induction false} SentFits(s: Store, t: string, bs: seq<seq<Row>>, fs: seq<bool>)
    requires t in s.facts
    requires forall k :: 0 <= k < |bs| ==> Fits(s, t, bs[k])
    ensures Fits(s, t, Sent(bs, fs))
    decreases |bs|
  {
    if bs != [] {
      var init := bs[..|bs| - 1];
      SentFits(s, t, init, fs);
      var a := Sent(init, fs);
      var b := if FaultAt(fs, |bs| - 1) then [] else bs[|bs| - 1];
      assert Sent(bs, fs) == a + b;
      forall i | 0 <= i < |a + b| ensures |(a + b)[i]| == s.facts[t].columns {
        if i >= |a| {
          assert (a + b)[i] == b[i - |a|];
        }
      }
    }
  }

  /**
   * A batch whose call raises is rolled back and the load goes on: every
   * batch is attempted (one driver call each), and the table ends as if the
   * batches that did not raise had been sent in one call.
   */
  lemma {:induction false} BatchOutcomeSkipsFailed(e: Env, t: string, bs: seq<seq<Row>>)
    requires t in e.store.facts
    requires forall k :: 0 <= k < |bs| ==> Fits(e.store, t, bs[k])
    ensures var r := BatchOutcome(e, InsertFacts(t), bs);
      r.faults == Drop(e.faults, |bs|) &&
      ApplyAll(e.store, InsertFacts(t), Sent(bs, e.faults)) == Some(r.store)
    decreases |bs|
  {
    var q := InsertFacts(t);
    if bs == [] {
      assert e.faults[0..] == e.faults;
    } else {
      var n := |bs| - 1;
      var init := bs[..n];
      BatchOutcomeSkipsFailed(e, t, init);
      var m := BatchOutcome(e, q, init);
      var a := Sent(init, e.faults);
      SentFits(e.store, t, init, e.faults);
      InsertFactsSucceeds(e.store, t, a);
      assert Raises(m.faults) == FaultAt(e.faults, n);
      assert Rest(m.faults) == Drop(e.faults, |bs|);
      if !FaultAt(e.faults, n) {
        assert Fits(m.store, t, bs[n]);
        InsertFactsSucceeds(m.store, t, bs[n]);
        ApplyAllConcat(e.store, q, a, bs[n]);
      } else {
        assert a + [] == a;
      }
    }
  }

  /** With no driver fault, every batch is sent. */
  lemma {:induction false} SentNoFaults(bs: seq<seq<Row>>, fs: seq<bool>)
    requires true !in fs
    ensures Sent(bs, fs) == Batching.Concat(bs)
    decreases |bs|
  {
    if bs != [] {
      SentNoFaults(bs[..|bs| - 1], fs);
      Batching.ConcatSnoc(bs);
      assert !FaultAt(fs, |bs| - 1);
    }
  }

  /**
   * With no driver fault, loading `data` in batches of `size` leaves the
   * table as one `execute_many` of all of `data` would.
   */
  lemma BatchedLoadNoFaults(e: Env, t: string, data: seq<Row>, size: nat)
    requires size > 0 && true !in e.faults && Fits(e.store, t, data)
    ensures var r := BatchOutcome(e, InsertFacts(t), Batching.Batches(data, size));
      true !in r.faults && Some(r.store) == ApplyAll(e.store, InsertFacts(t), data)
  {
    var bs := Batching.Batches(data, size);
    Batching.BatchRowsFrom(data, size);
    forall k | 0 <= k < |bs| ensures Fits(e.store, t, bs[k]) {
      forall i | 0 <= i < |bs[k]| ensures |bs[k][i]| == e.store.facts[t].columns {
        var j :| 0 <= j < |data| && data[j] == bs[k][i];
      }
    }
    BatchOutcomeSkipsFailed(e, t, bs);
    SentNoFaults(bs, e.faults);
    Batching.BatchesConcat(data, size);
    var r := BatchOutcome(e, InsertFacts(t), bs);
    assert forall k :: 0 <= k < |r.faults| ==> r.faults[k] == e.faults[|bs| + k];
  }

  // ---------------------------------------------------------------- run

  /** The steps of `run`, in the order it takes them. */
  datatype Step =
    | Schema | Domains | Courses | Assessments | VleSites
    | StudentInfos | Registrations | StudentAssessments | StudentVles

  const Pipeline: seq<Step> := [Schema, Domains, Courses, Assessments, VleSites,
                                StudentInfos, Registrations, StudentAssessments, StudentVles]

  /** The step at a position of `run`. */
  function StepAt(i: nat): (step: Step)
    requires i < |Pipeline|
    ensures step == Pipeline[i]
  {
    match i
    case 0 => Schema
    case 1 => Domains
    case 2 => Courses
    case 3 => Assessments
    case 4 => VleSites
    case 5 => StudentInfos
    case 6 => Registrations
    case 7 => StudentAssessments
    case _ => StudentVles
  }

  /** The position of a step in `run`. */
  function StepIndex(step: Step): (i: nat)
    ensures i < |Pipeline| && Pipeline[i] == step
    ensures forall j :: 0 <= j < |Pipeline| && Pipeline[j] == step ==> j == i
  {
    match step
    case Schema => 0
    case Domains => 1
    case Courses => 2
    case Assessments => 3
    case VleSites => 4
    case StudentInfos => 5
    case Registrations => 6
    case StudentAssessments => 7
    case StudentVles => 8
  }

  /** How many steps complete when `crash` (if any) raises at the start of its step. */
  function StopAt(crash: Option<Step>): (n: nat)
    ensures n <= |Pipeline|
    ensures crash.None? <==> n == |Pipeline|
  {
    match crash
    case None => |Pipeline|
    case Some(step) => StepIndex(step)
  }

  /**
   * A loader that sends all its rows in one `execute_many`: one driver call,
   * rows appended to its own table at most, `domain_maps` untouched.
   */
  function ManyLoad(st: EtlState, table: string, rows: seq<Row>): (r: EtlState)
    ensures r.maps == st.maps
    ensures GrowsOnly(st.env.store, r.env.store, table)
  {
    ManyFrame(st.env, table, rows);
    EtlState(ManyOutcome(st.env, InsertFacts(table), rows).1, st.maps)
  }

  /**
   * A loader that sends its rows in batches of `size`: one driver call per
   * batch, rows appended to its own table at most, `domain_maps` untouched.
   */
  function BatchedLoad(st: EtlState, table: string, rows: seq<Row>, size: nat): (r: EtlState)
    requires size > 0
    ensures r.maps == st.maps
    ensures GrowsOnly(st.env.store, r.env.store, table)
  {
    BatchFrame(st.env, table, Batching.Batches(rows, size));
    EtlState(BatchOutcome(st.env, InsertFacts(table), Batching.Batches(rows, size)), st.maps)
  }

  /**
   * `_create_schema`: run the script if the file exists, else do nothing.
   * Only the log of statements can change; with no driver fault it gains
   * every statement of the script.
   */
  function SchemaOutcome(st: EtlState, schema: Option<string>): (r: EtlState)
    ensures r.maps == st.maps
    ensures r.env.store.domains == st.env.store.domains && r.env.store.facts == st.env.store.facts
    ensures schema.None? ==> r == st
    ensures true !in st.env.faults ==>
      true !in r.env.faults &&
      r.env.store.log == st.env.store.log + (if schema.Some? then Text.SplitStatements(schema.value) else [])
  {
    match schema
    case None => st
    case Some(script) => EtlState(ScriptOutcome(st.env, script).1, st.maps)
  }

  /** What one step of `run` does to the database and `domain_maps`. */
  function StepOutcome(st: EtlState, ds: Datasets, step: Step): (r: EtlState)
    ensures step == Domains ==> MapsReady(r.maps)
    ensures step != Domains ==> r.maps == st.maps
  {
    match step
    case Schema => SchemaOutcome(st, ds.schema)
    case Domains => DomainTablesOutcome(st, ds)
    case Courses => ManyLoad(st, "courses", CourseRows(ds))
    case Assessments => ManyLoad(st, "assessments", AssessmentRows(st.maps, ds))
    case VleSites => ManyLoad(st, "vle", VleRows(st.maps, ds))
    case StudentInfos => BatchedLoad(st, "student_info", StudentInfoRows(st.maps, ds), 1000)
    case Registrations => ManyLoad(st, "student_registration", RegistrationRows(ds))
    case StudentAssessments => BatchedLoad(st, "student_assessment", StudentAssessmentRows(ds), 5000)
    case StudentVles => BatchedLoad(st, "student_vle", StudentVleRows(ds), 10000)
  }

  /**
   * The first `n` steps of `run`, in order.  From the third step on, all
   * nine domain maps are present, so no loader's lookup can miss a table.
   */
  function Steps(st: EtlState, ds: Datasets, n: nat): (r: EtlState)
    requires n <= |Pipeline|
    ensures n >= 2 ==> MapsReady(r.maps)
    decreases n
  {
    if n == 0 then st
    else StepOutcome(Steps(st, ds, n - 1), ds, StepAt(n - 1))
  }

  /** The nine steps of `run` are, in order, the schema, the domain tables and the seven loaders. */
  lemma RunSteps(st: EtlState, ds: Datasets)
    ensures Steps(st, ds, 1) == SchemaOutcome(st, ds.schema)
    ensures Steps(st, ds, 2) == DomainTablesOutcome(Steps(st, ds, 1), ds)
    ensures Steps(st, ds, 3) == ManyLoad(Steps(st, ds, 2), "courses", CourseRows(ds))
    ensures Steps(st, ds, 4) == ManyLoad(Steps(st, ds, 3), "assessments", AssessmentRows(Steps(st, ds, 3).maps, ds))
    ensures Steps(st, ds, 5) == ManyLoad(Steps(st, ds, 4), "vle", VleRows(Steps(st, ds, 4).maps, ds))
    ensures Steps(st, ds, 6) ==
      BatchedLoad(Steps(st, ds, 5), "student_info", StudentInfoRows(Steps(st, ds, 5).maps, ds), 1000)
    ensures Steps(st, ds, 7) == ManyLoad(Steps(st, ds, 6), "student_registration", RegistrationRows(ds))
    ensures Steps(st, ds, 8) == BatchedLoad(Steps(st, ds, 7), "student_assessment", StudentAssessmentRows(ds), 5000)
    ensures Steps(st, ds, 9) == BatchedLoad(Steps(st, ds, 8), "student_vle", StudentVleRows(ds), 10000)
  {
    StepsUnfold(st, ds, 0);
    StepsUnfold(st, ds, 1);
    StepsUnfold(st, ds, 2);
    StepsUnfold(st, ds, 3);
    StepsUnfold(st, ds, 4);
    StepsUnfold(st, ds, 5);
    StepsUnfold(st, ds, 6);
    StepsUnfold(st, ds, 7);
    StepsUnfold(st, ds, 8);
  }

  /** One more step of `run`. */
  lemma StepsUnfold(st: EtlState, ds: Datasets, k: nat)
    requires k < |Pipeline|
    ensures Steps(st, ds, k + 1) == StepOutcome(Steps(st, ds, k), ds, StepAt(k))
  {
  }
}
