/**
 * The `ETLProcess` class: connect, create the schema, fill the domain tables
 * from the raw CSV values, then clean and load the seven fact tables in a
 * fixed order, and disconnect on every path once connected.
 *
 * Each method leaves the database and `domain_maps` as the matching function
 * of module `ETL` prescribes, applied to the state before it.
 */
module EtlProcess {
  import opened Wrappers
  import opened Seqs
  import Batching
  import Cleaner
  import opened Storage
  import opened Database
  import opened ETL

  class ETLProcess {
    const db: DatabaseConnection
    /** `self.domain_maps`: per domain table, stored value to stored id. */
    var domainMaps: map<string, DomainMap>

    /** `__init__`: a new connection object and no domain maps yet. */
    constructor(server: Store, driverFaults: seq<bool>)
      ensures fresh(db) && db.connection == Absent && db.cursor == NoCursor
      ensures db.store == server && db.faults == driverFaults && domainMaps == map[]
    {
      db := new DatabaseConnection(server, driverFaults);
      domainMaps := map[];
    }

    /** The database, the driver's oracle and `domain_maps`. */
    function State(): EtlState
      reads this, db
    {
      EtlState(Env(db.store, db.faults), domainMaps)
    }

    /** Connected, with a cursor. */
    predicate Connected()
      reads db
    {
      db.connection == Open && db.cursor == OpenCursor
    }

    /**
     * `run`: connect (returning False at once if that fails), then the nine
     * steps in order inside `try`, and `disconnect` in `finally`.  `crash`
     * is a non-database exception (say, a missing CSV file) raised at the
     * start of that step.
     */
    method Run(ds: Datasets, crash: Option<Step>) returns (ok: bool)
      modifies this, db
      ensures ok <==> ConnectSucceeds(old(db.faults)) && crash.None?
      ensures !ConnectSucceeds(old(db.faults)) ==>
        db.store == old(db.store) && domainMaps == old(domainMaps) &&
        db.faults == AfterConnect(old(db.faults)) && db.cursor == old(db.cursor) &&
        db.connection == (if Raises(old(db.faults)) then old(db.connection) else Open)
      ensures ConnectSucceeds(old(db.faults)) ==>
        db.connection == Closed && db.cursor == ClosedCursor &&
        State() == Steps(EtlState(Env(old(db.store), AfterConnect(old(db.faults))), old(domainMaps)),
                         ds, StopAt(crash))
    {
      var connected := db.Connect();
      if !connected {
        return false;
      }
      ok := LoadAll(ds, crash);
      db.Disconnect();
    }

    /** The `try` block of `run`: the nine steps in order; a step that raises ends it with False. */
    method LoadAll(ds: Datasets, crash: Option<Step>) returns (ok: bool)
      requires Connected()
      modifies this, db
      ensures Connected()
      ensures ok <==> crash.None?
      ensures State() == Steps(old(State()), ds, StopAt(crash))
    {
      ghost var s0 := State();
      RunSteps(s0, ds);
      if StopAt(crash) == 0 {
        return false;
      }
      CreateSchema(ds);
      if StopAt(crash) == 1 {
        return false;
      }
      LoadDomainTables(ds);
      if StopAt(crash) == 2 {
        return false;
      }
      LoadCourses(ds);
      if StopAt(crash) == 3 {
        return false;
      }
      LoadAssessments(ds);
      if StopAt(crash) == 4 {
        return false;
      }
      LoadVle(ds);
      if StopAt(crash) == 5 {
        return false;
      }
      LoadStudentInfo(ds);
      if StopAt(crash) == 6 {
        return false;
      }
      LoadStudentRegistration(ds);
      if StopAt(crash) == 7 {
        return false;
      }
      LoadStudentAssessment(ds);
      if StopAt(crash) == 8 {
        return false;
      }
      LoadStudentVle(ds);
      return true;
    }

    /** `_create_schema`: run the script when the file exists; otherwise only report it. */
    method CreateSchema(ds: Datasets)
      requires Connected()
      modifies db
      ensures Connected()
      ensures State() == SchemaOutcome(old(State()), ds.schema)
    {
      if ds.schema.Some? {
        var _ := db.ExecuteScript(ds.schema.value);
      }
    }

    /** `_load_domain_tables`: the nine `_load_domain` calls, in order. */
    method LoadDomainTables(ds: Datasets)
      requires Connected()
      modifies this, db
      ensures Connected()
      ensures State() == DomainTablesOutcome(old(State()), ds)
    {
      var loads := DomainLoads(ds);
      ghost var s0 := State();
      LoadDomain(loads[0].table, loads[0].column, loads[0].values);
      assert State() == DomainsOutcome(s0, loads, 1);
      LoadDomain(loads[1].table, loads[1].column, loads[1].values);
      assert State() == DomainsOutcome(s0, loads, 2);
      LoadDomain(loads[2].table, loads[2].column, loads[2].values);
      assert State() == DomainsOutcome(s0, loads, 3);
      LoadDomain(loads[3].table, loads[3].column, loads[3].values);
      assert State() == DomainsOutcome(s0, loads, 4);
      LoadDomain(loads[4].table, loads[4].column, loads[4].values);
      assert State() == DomainsOutcome(s0, loads, 5);
      LoadDomain(loads[5].table, loads[5].column, loads[5].values);
      assert State() == DomainsOutcome(s0, loads, 6);
      LoadDomain(loads[6].table, loads[6].column, loads[6].values);
      assert State() == DomainsOutcome(s0, loads, 7);
      LoadDomain(loads[7].table, loads[7].column, loads[7].values);
      assert State() == DomainsOutcome(s0, loads, 8);
      LoadDomain(loads[8].table, loads[8].column, loads[8].values);
    }

    /**
     * `_load_domain`: one `INSERT IGNORE` per kept value, results ignored;
     * then read the table back into `domain_maps[table]`.
     */
    method LoadDomain(table: string, column: string, values: seq<Option<string>>)
      requires Connected()
      modifies this, db
      ensures Connected()
      ensures State() == LoadDomainOutcome(old(State()), table, column, values)
    {
      var kept := KeptValues(values);
      var idColumn := IdColumn(table);
      ghost var e0 := Env(db.store, db.faults);
      for i := 0 to |kept|
        invariant Connected()
        invariant Env(db.store, db.faults) == InsertEach(e0, table, column, kept[..i])
        invariant domainMaps == old(domainMaps)
      {
        assert kept[..i + 1][..i] == kept[..i];
        var _ := db.ExecuteQuery(InsertDomainValue(table, column), [Str(kept[i])]);
      }
      assert kept[..|kept|] == kept;
      var results := db.FetchAll(SelectDomain(table, idColumn, column));
      domainMaps := domainMaps[table := MapFromRows(results)];
    }

    /** `_load_courses`: one `execute_many` of the cleaned rows. */
    method LoadCourses(ds: Datasets)
      requires Connected()
      modifies db
      ensures Connected()
      ensures State() == ManyLoad(old(State()), "courses", CourseRows(ds))
    {
      var df := Cleaner.CleanCourses(ds.courses);
      var data := MapRows(CourseRow, df);
      var _ := db.ExecuteMany(InsertFacts("courses"), data);
    }

    /** `_load_assessments`: add the type ordinal, then one `execute_many`. */
    method LoadAssessments(ds: Datasets)
      requires Connected() && MapsReady(domainMaps)
      modifies db
      ensures Connected()
      ensures State() == ManyLoad(old(State()), "assessments", AssessmentRows(old(domainMaps), ds))
    {
      var df := Cleaner.CleanAssessments(ds.assessments);
      assert DomainTables[7] == "assessment_type_domain";
      var m := domainMaps["assessment_type_domain"];
      var data := MapRows((a: Cleaner.Assessment) => AssessmentRow(m, a), df);
      var _ := db.ExecuteMany(InsertFacts("assessments"), data);
    }

    /** `_load_vle`: add the activity ordinal, then one `execute_many`. */
    method LoadVle(ds: Datasets)
      requires Connected() && MapsReady(domainMaps)
      modifies db
      ensures Connected()
      ensures State() == ManyLoad(old(State()), "vle", VleRows(old(domainMaps), ds))
    {
      var df := Cleaner.CleanVle(ds.vle);
      assert DomainTables[8] == "activity_type_domain";
      var m := domainMaps["activity_type_domain"];
      var data := MapRows((v: Cleaner.Vle) => VleRow(m, v), df);
      var _ := db.ExecuteMany(InsertFacts("vle"), data);
    }

    /** `_load_student_info`: add the seven ordinals, then batches of 1000. */
    method LoadStudentInfo(ds: Datasets)
      requires Connected() && MapsReady(domainMaps)
      modifies db
      ensures Connected()
      ensures State() == BatchedLoad(old(State()), "student_info", StudentInfoRows(old(domainMaps), ds), 1000)
    {
      var df := Cleaner.CleanStudentInfo(ds.studentInfo);
      var maps := domainMaps;
      var data := MapRows((s: Cleaner.StudentInfo) => StudentInfoRow(maps, s), df);
      InsertInBatches("student_info", data, 1000);
    }

    /** `_load_student_registration`: one `execute_many`. */
    method LoadStudentRegistration(ds: Datasets)
      requires Connected()
      modifies db
      ensures Connected()
      ensures State() == ManyLoad(old(State()), "student_registration", RegistrationRows(ds))
    {
      var df := Cleaner.CleanStudentRegistration(ds.registrations);
      var data := MapRows(RegistrationRow, df);
      var _ := db.ExecuteMany(InsertFacts("student_registration"), data);
    }

    /** `_load_student_assessment`: batches of 5000. */
    method LoadStudentAssessment(ds: Datasets)
      requires Connected()
      modifies db
      ensures Connected()
      ensures State() == BatchedLoad(old(State()), "student_assessment", StudentAssessmentRows(ds), 5000)
    {
      var df := Cleaner.CleanStudentAssessment(ds.studentAssessments);
      var data := MapRows(StudentAssessmentRow, df);
      InsertInBatches("student_assessment", data, 5000);
    }

    /** `_load_student_vle`: batches of 10000. */
    method LoadStudentVle(ds: Datasets)
      requires Connected()
      modifies db
      ensures Connected()
      ensures State() == BatchedLoad(old(State()), "student_vle", StudentVleRows(ds), 10000)
    {
      var df := Cleaner.CleanStudentVle(ds.studentVle);
      var data := MapRows(StudentVleRow, df);
      InsertInBatches("student_vle", data, 10000);
    }

    /**
     * `for i in range(0, len(data), batch_size): execute_many(query, data[i:i + batch_size])`,
     * ignoring each call's result.
     */
    method InsertInBatches(table: string, data: seq<Row>, size: nat)
      requires Connected() && size > 0
      modifies db
      ensures Connected()
      ensures Env(db.store, db.faults) ==
        BatchOutcome(old(Env(db.store, db.faults)), InsertFacts(table), Batching.Batches(data, size))
    {
      ghost var e0 := Env(db.store, db.faults);
      ghost var bs := Batching.Batches(data, size);
      ghost var sent: seq<seq<Row>> := [];
      var i := 0;
      ghost var j := 0;
      Batching.BatchAt(data, size, 0);
      while i < |data|
        invariant i == j * size && j <= |bs|
        invariant j < |bs| <==> i < |data|
        invariant sent == bs[..j]
        invariant Connected()
        invariant Env(db.store, db.faults) == BatchOutcome(e0, InsertFacts(table), sent)
      {
        Batching.BatchNext(data, size, j);
        var batch := data[i..Batching.Min(i + size, |data|)];
        assert batch == bs[j];
        Batching.TakeNext(bs, j);
        BatchOutcomeSnoc(e0, InsertFacts(table), sent, batch);
        var _ := db.ExecuteMany(InsertFacts(table), batch);
        sent := sent + [batch];
        i := i + size;
        j := j + 1;
      }
      assert sent == bs;
    }
  }
}
