/**
 * Running the whole load a second time on the same files.  Every domain
 * and fact insert is `INSERT IGNORE`, `domain_maps` is read back from the
 * tables, and the schema script's statements only reach the log: so with
 * no driver fault a second `run` adds no row to any table and leaves
 * `domain_maps` as the first run left it.  Only the schema statements are
 * executed again.
 */
module Rerun {
  import opened Wrappers
  import Text
  import Batching
  import opened Storage
  import opened Database
  import opened ETL

  /** No driver call raises from here on. */
  predicate Quiet(st: EtlState) {
    true !in st.env.faults
  }

  /** The statements one `_create_schema` adds to the log. */
  function SchemaLog(schema: Option<string>): seq<string> {
    if schema.Some? then Text.SplitStatements(schema.value) else []
  }

  // ----------------------------------------------------------- fact tables

  /**
   * One `execute_many` of `rows` into `t` adds nothing: the table is missing
   * or a row does not fit it (the whole call fails), or every row's primary
   * key is stored already.
   */
  predicate Absorbed(facts: map<string, FactTable>, t: string, rows: seq<Row>) {
    t in facts ==>
      (exists i :: 0 <= i < |rows| && |rows[i]| != facts[t].columns) ||
      (forall i :: 0 <= i < |rows| ==> HasKey(facts[t], Key(facts[t], rows[i])))
  }

  /** Every batch is absorbed. */
  predicate AllAbsorbed(facts: map<string, FactTable>, t: string, bs: seq<seq<Row>>) {
    forall j :: 0 <= j < |bs| ==> Absorbed(facts, t, bs[j])
  }

  /** Rows a table absorbed stay absorbed while the tables only grow. */
  lemma AbsorbedGrows(s: Store, r: Store, t: string, u: string, rows: seq<Row>)
    requires GrowsOnly(s, r, t) && Absorbed(s.facts, u, rows)
    ensures Absorbed(r.facts, u, rows)
  {
    if u in s.facts && u == t && forall i :: 0 <= i < |rows| ==> HasKey(s.facts[u], Key(s.facts[u], rows[i])) {
      forall i | 0 <= i < |rows| ensures HasKey(r.facts[u], Key(r.facts[u], rows[i])) {
        HasKeyGrows(s.facts[u], r.facts[u], Key(s.facts[u], rows[i]));
      }
    }
  }

  lemma AllAbsorbedGrows(s: Store, r: Store, t: string, u: string, bs: seq<seq<Row>>)
    requires GrowsOnly(s, r, t) && AllAbsorbed(s.facts, u, bs)
    ensures AllAbsorbed(r.facts, u, bs)
  {
    forall j | 0 <= j < |bs| ensures Absorbed(r.facts, u, bs[j]) {
      AbsorbedGrows(s, r, t, u, bs[j]);
    }
  }

  /** With no driver fault, one `execute_many` leaves its own rows absorbed. */
  lemma ManyAbsorbs(e: Env, t: string, rows: seq<Row>)
    requires true !in e.faults
    ensures Absorbed(ManyOutcome(e, InsertFacts(t), rows).1.store.facts, t, rows)
  {
    var r := ManyOutcome(e, InsertFacts(t), rows).1.store;
    ManyFrame(e, t, rows);
    if t in e.store.facts {
      if forall i :: 0 <= i < |rows| ==> |rows[i]| == e.store.facts[t].columns {
        InsertFactsSucceeds(e.store, t, rows);
        assert !Raises(e.faults);
        assert r == ApplyAll(e.store, InsertFacts(t), rows).value;
      } else {
        var i :| 0 <= i < |rows| && |rows[i]| != e.store.facts[t].columns;
        assert |rows[i]| != r.facts[t].columns;
      }
    }
  }

  /** Absorbed rows change nothing, whatever the driver does. */
  lemma ManyAbsorbedNoop(e: Env, t: string, rows: seq<Row>)
    requires Absorbed(e.store.facts, t, rows)
    ensures ManyOutcome(e, InsertFacts(t), rows).1.store == e.store
  {
    InsertFactsFrame(e.store, t, rows);
    if rows != [] && ApplyAll(e.store, InsertFacts(t), rows).Some? {
      assert t in e.store.facts && |rows[0]| == e.store.facts[t].columns;
      InsertFactsPresent(e.store, t, rows);
    }
  }

  /** With no driver fault, one more batch keeps the earlier ones absorbed and absorbs itself. */
  lemma BatchAbsorbsStep(m: Env, t: string, init: seq<seq<Row>>, last: seq<Row>)
    requires true !in m.faults && AllAbsorbed(m.store.facts, t, init)
    ensures AllAbsorbed(ManyOutcome(m, InsertFacts(t), last).1.store.facts, t, init + [last])
  {
    var r := ManyOutcome(m, InsertFacts(t), last).1;
    ManyAbsorbs(m, t, last);
    ManyFrame(m, t, last);
    AllAbsorbedGrows(m.store, r.store, t, t, init);
    var bs := init + [last];
    forall j | 0 <= j < |bs| ensures Absorbed(r.store.facts, t, bs[j]) {
      if j < |init| {
        assert bs[j] == init[j];
      }
    }
  }

  /** With no driver fault, a batched load leaves every one of its batches absorbed. */
  lemma {:induction false} BatchAbsorbs(e: Env, t: string, bs: seq<seq<Row>>)
    requires true !in e.faults
    ensures AllAbsorbed(BatchOutcome(e, InsertFacts(t), bs).store.facts, t, bs)
    decreases |bs|
  {
    if bs != [] {
      var init := bs[..|bs| - 1];
      var last := bs[|bs| - 1];
      BatchAbsorbs(e, t, init);
      var m := BatchOutcome(e, InsertFacts(t), init);
      DropQuiet(e.faults, |init|);
      BatchAbsorbsStep(m, t, init, last);
      assert bs == init + [last];
    }
  }

  /** A batched load of absorbed batches changes nothing, whatever the driver does. */
  lemma {:induction false} BatchAbsorbedNoop(e: Env, t: string, bs: seq<seq<Row>>)
    requires AllAbsorbed(e.store.facts, t, bs)
    ensures BatchOutcome(e, InsertFacts(t), bs).store == e.store
    decreases |bs|
  {
    if bs != [] {
      var init := bs[..|bs| - 1];
      forall j | 0 <= j < |init| ensures Absorbed(e.store.facts, t, init[j]) {
        assert init[j] == bs[j];
      }
      BatchAbsorbedNoop(e, t, init);
      ManyAbsorbedNoop(BatchOutcome(e, InsertFacts(t), init), t, bs[|bs| - 1]);
    }
  }

  // ------------------------------------------------------- the seven loaders

  /** Sending all rows in one call is a batched load with a single batch. */
  lemma ManyLoadOneBatch(st: EtlState, t: string, rows: seq<Row>)
    ensures ManyLoad(st, t, rows) == EtlState(BatchOutcome(st.env, InsertFacts(t), [rows]), st.maps)
  {
    assert [rows][..0] == [];
  }

  /**
   * After the first `n` steps of `run`, every loader among them has had its
   * rows absorbed, in the `execute_many` calls it makes: all rows at once,
   * or one call per batch of 1000, 5000 or 10000.
   */
  predicate LoadsAbsorbed(facts: map<string, FactTable>, maps: map<string, DomainMap>, ds: Datasets, n: nat) {
    (n > 2 ==> AllAbsorbed(facts, "courses", [CourseRows(ds)])) &&
    (n > 3 ==> AllAbsorbed(facts, "assessments", [AssessmentRows(maps, ds)])) &&
    (n > 4 ==> AllAbsorbed(facts, "vle", [VleRows(maps, ds)])) &&
    (n > 5 ==> AllAbsorbed(facts, "student_info", Batching.Batches(StudentInfoRows(maps, ds), 1000))) &&
    (n > 6 ==> AllAbsorbed(facts, "student_registration", [RegistrationRows(ds)])) &&
    (n > 7 ==> AllAbsorbed(facts, "student_assessment", Batching.Batches(StudentAssessmentRows(ds), 5000))) &&
    (n > 8 ==> AllAbsorbed(facts, "student_vle", Batching.Batches(StudentVleRows(ds), 10000)))
  }

  /** What the loaders absorbed stays absorbed while the tables only grow. */
  lemma LoadsAbsorbedGrows(s: Store, r: Store, t: string, maps: map<string, DomainMap>, ds: Datasets, n: nat)
    requires GrowsOnly(s, r, t) && LoadsAbsorbed(s.facts, maps, ds, n)
    ensures LoadsAbsorbed(r.facts, maps, ds, n)
  {
    if n > 2 { AllAbsorbedGrows(s, r, t, "courses", [CourseRows(ds)]); }
    if n > 3 { AllAbsorbedGrows(s, r, t, "assessments", [AssessmentRows(maps, ds)]); }
    if n > 4 { AllAbsorbedGrows(s, r, t, "vle", [VleRows(maps, ds)]); }
    if n > 5 { AllAbsorbedGrows(s, r, t, "student_info", Batching.Batches(StudentInfoRows(maps, ds), 1000)); }
    if n > 6 { AllAbsorbedGrows(s, r, t, "student_registration", [RegistrationRows(ds)]); }
    if n > 7 { AllAbsorbedGrows(s, r, t, "student_assessment", Batching.Batches(StudentAssessmentRows(ds), 5000)); }
    if n > 8 { AllAbsorbedGrows(s, r, t, "student_vle", Batching.Batches(StudentVleRows(ds), 10000)); }
  }

  // ---------------------------------------------------------- domain tables

  /** The nine domain tables have distinct names. */
  lemma DomainTablesDistinct()
    ensures forall j, k :: 0 <= j < k < |DomainTables| ==> DomainTables[j] != DomainTables[k]
  {
    forall j, k | 0 <= j < k < |DomainTables| ensures DomainTables[j] != DomainTables[k] {
      assert |DomainTables[j]| != |DomainTables[k]| || DomainTables[j][0] != DomainTables[k][0];
    }
  }

  /** No two loads fill the same table. */
  predicate Distinct(loads: seq<DomainLoad>) {
    forall j, k :: 0 <= j < k < |loads| ==> loads[j].table != loads[k].table
  }

  /** Every table loaded is as the schema defines it for its column. */
  predicate Ready(s: Store, loads: seq<DomainLoad>) {
    forall k :: 0 <= k < |loads| ==> DomainReady(s, loads[k].table, loads[k].column)
  }

  /**
   * The table of load `l` is as `_load_domain` leaves it: ready, holding
   * every value kept from the load, and its `domain_maps` entry read back
   * from it.
   */
  predicate Settled(s: Store, maps: map<string, DomainMap>, l: DomainLoad) {
    var vs := KeptValues(l.values);
    DomainReady(s, l.table, l.column) &&
    (forall i :: 0 <= i < |vs| ==> HasValue(s.domains[l.table], vs[i])) &&
    l.table in maps && maps[l.table] == DomainMapOf(s.domains[l.table])
  }

  predicate AllSettled(s: Store, maps: map<string, DomainMap>, loads: seq<DomainLoad>) {
    forall k :: 0 <= k < |loads| ==> Settled(s, maps, loads[k])
  }

  /** Whether the tables are ready or settled depends on the domain tables alone. */
  lemma SameDomains(s: Store, r: Store, maps: map<string, DomainMap>, loads: seq<DomainLoad>)
    requires r.domains == s.domains
    ensures Ready(r, loads) == Ready(s, loads)
    ensures AllSettled(r, maps, loads) == AllSettled(s, maps, loads)
  {
    assert forall t, c :: DomainReady(r, t, c) == DomainReady(s, t, c);
    assert forall k :: 0 <= k < |loads| ==> Settled(r, maps, loads[k]) == Settled(s, maps, loads[k]);
  }

  /** Whether a table is ready depends on that table alone. */
  lemma ReadyFrame(s: Store, r: Store, l: DomainLoad)
    requires DomainReady(s, l.table, l.column)
    requires l.table in r.domains && r.domains[l.table] == s.domains[l.table]
    ensures DomainReady(r, l.table, l.column)
  {
  }

  /** Whether a table is settled depends on that table and its map alone. */
  lemma SettledFrame(s: Store, maps: map<string, DomainMap>, r: Store, maps': map<string, DomainMap>, l: DomainLoad)
    requires Settled(s, maps, l)
    requires l.table in r.domains && r.domains[l.table] == s.domains[l.table]
    requires l.table in maps' && maps'[l.table] == maps[l.table]
    ensures Settled(r, maps', l)
  {
    ReadyFrame(s, r, l);
  }

  /** A load that rewrites table `n` leaves the other tables ready and the earlier ones settled. */
  lemma OthersStay(m: Store, maps: map<string, DomainMap>, r: Store, maps': map<string, DomainMap>,
                   loads: seq<DomainLoad>, n: nat, d': DomainTable)
    requires n < |loads| && Distinct(loads) && Ready(m, loads)
    requires forall k :: 0 <= k < n ==> Settled(m, maps, loads[k])
    requires r.domains == m.domains[loads[n].table := d']
    requires maps' == maps[loads[n].table := DomainMapOf(d')]
    ensures forall k :: 0 <= k < |loads| && k != n ==> DomainReady(r, loads[k].table, loads[k].column)
    ensures forall k :: 0 <= k < n ==> Settled(r, maps', loads[k])
  {
    forall k | 0 <= k < |loads| && k != n ensures DomainReady(r, loads[k].table, loads[k].column) {
      assert loads[k].table != loads[n].table;
      ReadyFrame(m, r, loads[k]);
    }
    forall k | 0 <= k < n ensures Settled(r, maps', loads[k]) {
      assert loads[k].table != loads[n].table;
      SettledFrame(m, maps, r, maps', loads[k]);
    }
  }

  /** With no driver fault, load `n` settles its table and keeps the others as they were. */
  lemma DomainStep(m: EtlState, loads: seq<DomainLoad>, n: nat)
    requires n < |loads| && Distinct(loads)
    requires Quiet(m) && Ready(m.env.store, loads)
    requires forall k :: 0 <= k < n ==> Settled(m.env.store, m.maps, loads[k])
    ensures var l := loads[n];
      var r := LoadDomainOutcome(m, l.table, l.column, l.values);
      Quiet(r) && Ready(r.env.store, loads) &&
      forall k :: 0 <= k <= n ==> Settled(r.env.store, r.maps, loads[k])
  {
    var l := loads[n];
    var r := LoadDomainOutcome(m, l.table, l.column, l.values);
    LoadDomainNoFaults(m, l.table, l.column, l.values);
    var vs := KeptValues(l.values);
    var d' := InsertValues(m.env.store.domains[l.table], vs);
    OthersStay(m.env.store, m.maps, r.env.store, r.maps, loads, n, d');
    assert forall i :: 0 <= i < |vs| ==> HasValue(d', vs[i]);
    assert Settled(r.env.store, r.maps, l);
  }

  /** One more domain load is `_load_domain` applied to the state so far. */
  lemma DomainsNext(st: EtlState, loads: seq<DomainLoad>, k: nat)
    requires k < |loads|
    ensures DomainsOutcome(st, loads, k + 1)
      == LoadDomainOutcome(DomainsOutcome(st, loads, k), loads[k].table, loads[k].column, loads[k].values)
  {
  }

  /**
   * With no driver fault, the first `n` domain loads leave their own tables
   * settled and every table ready.
   */
  lemma {:induction false} DomainsEstablish(st: EtlState, loads: seq<DomainLoad>, n: nat)
    requires n <= |loads| && Distinct(loads)
    requires Quiet(st) && Ready(st.env.store, loads)
    ensures var r := DomainsOutcome(st, loads, n);
      Quiet(r) && Ready(r.env.store, loads) &&
      forall k :: 0 <= k < n ==> Settled(r.env.store, r.maps, loads[k])
    decreases n
  {
    if n > 0 {
      var k: nat := n - 1;
      DomainsEstablish(st, loads, k);
      DomainStep(DomainsOutcome(st, loads, k), loads, k);
      DomainsNext(st, loads, k);
    }
  }

  /** With no driver fault, loading a settled table again changes nothing. */
  lemma DomainNoopStep(m: EtlState, l: DomainLoad)
    requires Quiet(m) && Settled(m.env.store, m.maps, l)
    ensures var r := LoadDomainOutcome(m, l.table, l.column, l.values);
      Quiet(r) && r.env.store == m.env.store && r.maps == m.maps
  {
    LoadDomainNoFaults(m, l.table, l.column, l.values);
    InsertValuesPresent(m.env.store.domains[l.table], KeptValues(l.values));
    UpdateSame(m.env.store.domains, l.table);
    UpdateSame(m.maps, l.table);
  }

  /**
   * With no driver fault and every table settled, the domain loads change
   * neither the database nor `domain_maps`.
   */
  lemma {:induction false} DomainsNoop(st: EtlState, loads: seq<DomainLoad>, n: nat)
    requires n <= |loads|
    requires Quiet(st) && AllSettled(st.env.store, st.maps, loads)
    ensures var r := DomainsOutcome(st, loads, n);
      Quiet(r) && r.env.store == st.env.store && r.maps == st.maps
    decreases n
  {
    if n > 0 {
      var k: nat := n - 1;
      DomainsNoop(st, loads, k);
      DomainNoopStep(DomainsOutcome(st, loads, k), loads[k]);
      DomainsNext(st, loads, k);
    }
  }

  /** The nine calls of `_load_domain_tables` fill nine different tables. */
  lemma DomainLoadsDistinct(ds: Datasets)
    ensures Distinct(DomainLoads(ds))
  {
    DomainTablesDistinct();
  }

  // -------------------------------------------------------------- two runs

  /**
   * Where the first run stands after `n` steps: no driver fault, every
   * domain table ready and settled, every loader so far absorbed.
   */
  predicate FirstSoFar(r: EtlState, ds: Datasets, loads: seq<DomainLoad>, n: nat) {
    Quiet(r) && Ready(r.env.store, loads) && AllSettled(r.env.store, r.maps, loads) &&
    LoadsAbsorbed(r.env.store.facts, r.maps, ds, n)
  }

  /** A first-run loader step, as batches: its batches are absorbed and nothing earlier is undone. */
  lemma FirstBatches(m: EtlState, t: string, bs: seq<seq<Row>>, ds: Datasets, loads: seq<DomainLoad>, n: nat)
    requires FirstSoFar(m, ds, loads, n)
    ensures var r := EtlState(BatchOutcome(m.env, InsertFacts(t), bs), m.maps);
      FirstSoFar(r, ds, loads, n) && AllAbsorbed(r.env.store.facts, t, bs)
  {
    var r := EtlState(BatchOutcome(m.env, InsertFacts(t), bs), m.maps);
    BatchFrame(m.env, t, bs);
    BatchAbsorbs(m.env, t, bs);
    DropQuiet(m.env.faults, |bs|);
    SameDomains(m.env.store, r.env.store, m.maps, loads);
    LoadsAbsorbedGrows(m.env.store, r.env.store, t, m.maps, ds, n);
  }

  /** A first-run loader that sends all its rows in one call. */
  lemma FirstMany(m: EtlState, t: string, rows: seq<Row>, ds: Datasets, loads: seq<DomainLoad>, n: nat)
    requires FirstSoFar(m, ds, loads, n)
    ensures var r := ManyLoad(m, t, rows);
      FirstSoFar(r, ds, loads, n) && AllAbsorbed(r.env.store.facts, t, [rows])
  {
    ManyLoadOneBatch(m, t, rows);
    FirstBatches(m, t, [rows], ds, loads, n);
  }

  /** A first-run loader that sends its rows in batches of `size`. */
  lemma FirstBatched(m: EtlState, t: string, rows: seq<Row>, size: nat, ds: Datasets, loads: seq<DomainLoad>, n: nat)
    requires size > 0 && FirstSoFar(m, ds, loads, n)
    ensures var r := BatchedLoad(m, t, rows, size);
      FirstSoFar(r, ds, loads, n) && AllAbsorbed(r.env.store.facts, t, Batching.Batches(rows, size))
  {
    FirstBatches(m, t, Batching.Batches(rows, size), ds, loads, n);
  }

  /** The first two steps: the schema leaves the tables alone, then every domain table is settled. */
  lemma FirstSetup(st: EtlState, ds: Datasets, loads: seq<DomainLoad>)
    requires loads == DomainLoads(ds)
    requires Quiet(st) && Ready(st.env.store, loads)
    ensures FirstSoFar(Steps(st, ds, 2), ds, loads, 2)
  {
    RunSteps(st, ds);
    var s1 := Steps(st, ds, 1);
    SameDomains(st.env.store, s1.env.store, st.maps, loads);
    DomainLoadsDistinct(ds);
    DomainsEstablish(s1, loads, |loads|);
  }

  /** The first three loaders: courses, assessments, VLE sites. */
  lemma FirstEarlyLoads(st: EtlState, ds: Datasets, loads: seq<DomainLoad>)
    requires FirstSoFar(Steps(st, ds, 2), ds, loads, 2)
    ensures FirstSoFar(Steps(st, ds, 5), ds, loads, 5)
  {
    RunSteps(st, ds);
    FirstMany(Steps(st, ds, 2), "courses", CourseRows(ds), ds, loads, 2);
    assert FirstSoFar(Steps(st, ds, 3), ds, loads, 3);
    FirstMany(Steps(st, ds, 3), "assessments", AssessmentRows(Steps(st, ds, 3).maps, ds), ds, loads, 3);
    assert FirstSoFar(Steps(st, ds, 4), ds, loads, 4);
    FirstMany(Steps(st, ds, 4), "vle", VleRows(Steps(st, ds, 4).maps, ds), ds, loads, 4);
  }

  /** The last four loaders: student info, registrations, assessment results, VLE clicks. */
  lemma FirstLateLoads(st: EtlState, ds: Datasets, loads: seq<DomainLoad>)
    requires FirstSoFar(Steps(st, ds, 5), ds, loads, 5)
    ensures FirstSoFar(Steps(st, ds, 9), ds, loads, 9)
  {
    RunSteps(st, ds);
    FirstBatched(Steps(st, ds, 5), "student_info", StudentInfoRows(Steps(st, ds, 5).maps, ds), 1000, ds, loads, 5);
    assert FirstSoFar(Steps(st, ds, 6), ds, loads, 6);
    FirstMany(Steps(st, ds, 6), "student_registration", RegistrationRows(ds), ds, loads, 6);
    assert FirstSoFar(Steps(st, ds, 7), ds, loads, 7);
    FirstBatched(Steps(st, ds, 7), "student_assessment", StudentAssessmentRows(ds), 5000, ds, loads, 7);
    assert FirstSoFar(Steps(st, ds, 8), ds, loads, 8);
    FirstBatched(Steps(st, ds, 8), "student_vle", StudentVleRows(ds), 10000, ds, loads, 8);
  }

  /**
   * With no driver fault and the domain tables ready, a whole run leaves
   * every domain table settled and every loader's rows absorbed.
   */
  lemma FirstRun(st: EtlState, ds: Datasets, loads: seq<DomainLoad>)
    requires loads == DomainLoads(ds)
    requires Quiet(st) && Ready(st.env.store, loads)
    ensures FirstSoFar(Steps(st, ds, |Pipeline|), ds, loads, |Pipeline|)
  {
    FirstSetup(st, ds, loads);
    FirstEarlyLoads(st, ds, loads);
    FirstLateLoads(st, ds, loads);
  }

  /**
   * Where a second run stands after some steps: no driver fault, the tables
   * and `domain_maps` as the first run left them, the schema statements
   * logged once more.
   */
  predicate SecondSoFar(t: EtlState, r: EtlState, ds: Datasets) {
    Quiet(r) && r.env.store == t.env.store.(log := t.env.store.log + SchemaLog(ds.schema)) &&
    r.maps == t.maps
  }

  /** Absorbed batches: the loader step changes nothing but the fault oracle, which stays quiet. */
  lemma SecondBatches(m: EtlState, t: string, bs: seq<seq<Row>>)
    requires Quiet(m) && AllAbsorbed(m.env.store.facts, t, bs)
    ensures var r := EtlState(BatchOutcome(m.env, InsertFacts(t), bs), m.maps);
      Quiet(r) && r.env.store == m.env.store
  {
    BatchAbsorbedNoop(m.env, t, bs);
    DropQuiet(m.env.faults, |bs|);
  }

  /** A second-run loader that sends all its rows in one call. */
  lemma SecondMany(m: EtlState, t: string, rows: seq<Row>)
    requires Quiet(m) && AllAbsorbed(m.env.store.facts, t, [rows])
    ensures Quiet(ManyLoad(m, t, rows)) && ManyLoad(m, t, rows).env.store == m.env.store
  {
    ManyLoadOneBatch(m, t, rows);
    SecondBatches(m, t, [rows]);
  }

  /** A second-run loader that sends its rows in batches of `size`. */
  lemma SecondBatched(m: EtlState, t: string, rows: seq<Row>, size: nat)
    requires size > 0 && Quiet(m) && AllAbsorbed(m.env.store.facts, t, Batching.Batches(rows, size))
    ensures Quiet(BatchedLoad(m, t, rows, size)) && BatchedLoad(m, t, rows, size).env.store == m.env.store
  {
    SecondBatches(m, t, Batching.Batches(rows, size));
  }

  /** The second run's first two steps: the schema statements are logged, the domain tables are unchanged. */
  lemma SecondSetup(t: EtlState, ds: Datasets, loads: seq<DomainLoad>)
    requires loads == DomainLoads(ds)
    requires Quiet(t) && AllSettled(t.env.store, t.maps, loads)
    ensures SecondSoFar(t, Steps(t, ds, 2), ds)
  {
    RunSteps(t, ds);
    var s1 := Steps(t, ds, 1);
    SameDomains(t.env.store, s1.env.store, t.maps, loads);
    DomainsNoop(s1, loads, |loads|);
  }

  /** The second run's first three loaders add nothing. */
  lemma SecondEarlyLoads(t: EtlState, ds: Datasets)
    requires LoadsAbsorbed(t.env.store.facts, t.maps, ds, |Pipeline|)
    requires SecondSoFar(t, Steps(t, ds, 2), ds)
    ensures SecondSoFar(t, Steps(t, ds, 5), ds)
  {
    RunSteps(t, ds);
    SecondMany(Steps(t, ds, 2), "courses", CourseRows(ds));
    SecondMany(Steps(t, ds, 3), "assessments", AssessmentRows(Steps(t, ds, 3).maps, ds));
    SecondMany(Steps(t, ds, 4), "vle", VleRows(Steps(t, ds, 4).maps, ds));
  }

  /** The second run's last four loaders add nothing. */
  lemma SecondLateLoads(t: EtlState, ds: Datasets)
    requires LoadsAbsorbed(t.env.store.facts, t.maps, ds, |Pipeline|)
    requires SecondSoFar(t, Steps(t, ds, 5), ds)
    ensures SecondSoFar(t, Steps(t, ds, 9), ds)
  {
    RunSteps(t, ds);
    SecondBatched(Steps(t, ds, 5), "student_info", StudentInfoRows(Steps(t, ds, 5).maps, ds), 1000);
    SecondMany(Steps(t, ds, 6), "student_registration", RegistrationRows(ds));
    SecondBatched(Steps(t, ds, 7), "student_assessment", StudentAssessmentRows(ds), 5000);
    SecondBatched(Steps(t, ds, 8), "student_vle", StudentVleRows(ds), 10000);
  }

  /**
   * A second run from where the first left off: the tables and
   * `domain_maps` end as the first run left them, and the log has the
   * schema statements once more.
   */
  lemma SecondRun(t: EtlState, ds: Datasets, loads: seq<DomainLoad>)
    requires loads == DomainLoads(ds)
    requires Quiet(t) && AllSettled(t.env.store, t.maps, loads)
    requires LoadsAbsorbed(t.env.store.facts, t.maps, ds, |Pipeline|)
    ensures SecondSoFar(t, Steps(t, ds, |Pipeline|), ds)
  {
    SecondSetup(t, ds, loads);
    SecondEarlyLoads(t, ds);
    SecondLateLoads(t, ds);
  }

  /**
   * Running the whole load twice on the same files, with no driver fault and
   * the nine domain tables as the schema defines them: the second run adds
   * no row to any table and leaves `domain_maps` as the first left it; only
   * the schema statements reach the log again.
   */
  lemma RerunAddsNothing(st: EtlState, ds: Datasets)
    requires true !in st.env.faults
    requires forall k :: 0 <= k < |DomainTables| ==> DomainReady(st.env.store, DomainTables[k], DomainColumns[k])
    ensures var first := Steps(st, ds, |Pipeline|);
      var second := Steps(first, ds, |Pipeline|);
      second.env.store.domains == first.env.store.domains &&
      second.env.store.facts == first.env.store.facts &&
      second.env.store.log == first.env.store.log + SchemaLog(ds.schema) &&
      second.maps == first.maps
  {
    var loads := DomainLoads(ds);
    assert Ready(st.env.store, loads);
    FirstRun(st, ds, loads);
    SecondRun(Steps(st, ds, |Pipeline|), ds, loads);
  }
}
