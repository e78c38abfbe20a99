/**
 * `DatabaseConnection`: the loader's handle on MySQL.  Every write commits
 * on success and rolls back on a driver error, so the store below only ever
 * holds committed contents.
 *
 * Which driver calls raise `mysql.connector.Error` (a lost server, a failed
 * DDL statement, a constraint violation the model does not interpret) is a
 * parameter: the fault oracle `faults`, consumed one entry per driver call;
 * the call raises exactly when its entry is true, and calls past the end of
 * the oracle do not raise.  SQL errors the store model itself detects (an
 * unknown table or column, parameters that do not fit) raise as well.
 */
module Database {
  import opened Wrappers
  import Text
  import opened Storage

  /** `self.connection`: not yet made, open, or closed. */
  datatype Link = Absent | Open | Closed

  /** `self.cursor`: not yet made, open, or closed. */
  datatype CursorState = NoCursor | OpenCursor | ClosedCursor

  /** The committed database and the faults the driver has still to raise. */
  datatype Env = Env(store: Store, faults: seq<bool>)

  /** The next driver call raises. */
  predicate Raises(fs: seq<bool>) { |fs| > 0 && fs[0] }

  /** The oracle once a driver call has been made. */
  function Rest(fs: seq<bool>): (r: seq<bool>)
    ensures true !in fs ==> true !in r
  {
    if fs == [] then [] else fs[1..]
  }

  /** `connect()` succeeds: both the connection and its cursor are made. */
  predicate ConnectSucceeds(fs: seq<bool>) {
    !Raises(fs) && !Raises(Rest(fs))
  }

  /** The oracle once `connect()` has run: a failed connection makes no cursor call. */
  function AfterConnect(fs: seq<bool>): seq<bool> {
    if Raises(fs) then Rest(fs) else Rest(Rest(fs))
  }

  /**
   * `execute_query`: execute, commit, True; on an error, roll back this call
   * only and return False.
   */
  function QueryOutcome(e: Env, q: Query, params: Row): (r: (bool, Env))
    ensures r.1.faults == Rest(e.faults)
    ensures r.0 <==> !Raises(e.faults) && Apply(e.store, q, params).Some?
    ensures r.0 ==> r.1.store == Apply(e.store, q, params).value
    ensures !r.0 ==> r.1.store == e.store
  {
    if Raises(e.faults) then (false, Env(e.store, Rest(e.faults)))
    else match Apply(e.store, q, params)
      case None => (false, Env(e.store, Rest(e.faults)))
      case Some(s) => (true, Env(s, Rest(e.faults)))
  }

  /**
   * `execute_many`: all rows in one call, commit, True; on an error, roll back
   * the whole call and return False.
   */
  function ManyOutcome(e: Env, q: Query, rows: seq<Row>): (r: (bool, Env))
    ensures r.1.faults == Rest(e.faults)
    ensures r.0 <==> !Raises(e.faults) && ApplyAll(e.store, q, rows).Some?
    ensures r.0 ==> r.1.store == ApplyAll(e.store, q, rows).value
    ensures !r.0 ==> r.1.store == e.store
  {
    if Raises(e.faults) then (false, Env(e.store, Rest(e.faults)))
    else match ApplyAll(e.store, q, rows)
      case None => (false, Env(e.store, Rest(e.faults)))
      case Some(s) => (true, Env(s, Rest(e.faults)))
  }

  /** `fetch_all`: the rows, or `[]` on an error; nothing is written. */
  function FetchAllOutcome(e: Env, q: Query): (r: (seq<Row>, Env))
    ensures r.1 == Env(e.store, Rest(e.faults))
    ensures Raises(e.faults) || Select(e.store, q).None? ==> r.0 == []
    ensures !Raises(e.faults) && Select(e.store, q).Some? ==> r.0 == Select(e.store, q).value
  {
    if Raises(e.faults) then ([], Env(e.store, Rest(e.faults)))
    else match Select(e.store, q)
      case None => ([], Env(e.store, Rest(e.faults)))
      case Some(rows) => (rows, Env(e.store, Rest(e.faults)))
  }

  /** `fetch_one`: the first row; None on an error or when there is no row. */
  function FetchOneOutcome(e: Env, q: Query): (r: (Option<Row>, Env))
    ensures r.1 == Env(e.store, Rest(e.faults))
    ensures r.0.Some? <==> !Raises(e.faults) && Select(e.store, q).Some? && Select(e.store, q).value != []
    ensures r.0.Some? ==> r.0.value == Select(e.store, q).value[0]
  {
    if Raises(e.faults) then (None, Env(e.store, Rest(e.faults)))
    else match Select(e.store, q)
      case None => (None, Env(e.store, Rest(e.faults)))
      case Some(rows) => (if rows == [] then None else Some(rows[0]), Env(e.store, Rest(e.faults)))
  }

  /**
   * The statement loop of `execute_script`: each statement in turn, stopping
   * at the first that raises (false).  The statements before it stay run.
   */
  function RunStatements(e: Env, stmts: seq<string>): (r: (bool, Env))
    ensures r.0 ==> r.1.store == e.store.(log := e.store.log + stmts)
    ensures !r.0 ==> exists i :: 0 <= i < |stmts| && r.1.store == e.store.(log := e.store.log + stmts[..i])
    ensures true !in e.faults ==> r.0 && true !in r.1.faults
    decreases |stmts|
  {
    if stmts == [] then (true, e)
    else
      var init := stmts[..|stmts| - 1];
      var (ok, m) := RunStatements(e, init);
      if !ok then
        assert forall i :: 0 <= i < |init| ==> init[..i] == stmts[..i];
        (false, m)
      else if Raises(m.faults) then
        assert stmts[..|init|] == init;
        (false, Env(m.store, Rest(m.faults)))
      else
        assert init + [stmts[|stmts| - 1]] == stmts;
        (true, Env(RunStatement(m.store, stmts[|stmts| - 1]), Rest(m.faults)))
  }

  /** One more statement of the loop, once no statement has raised. */
  lemma RunStatementsStep(e: Env, stmts: seq<string>, i: nat)
    requires i < |stmts| && RunStatements(e, stmts[..i]).0
    ensures var m := RunStatements(e, stmts[..i]).1;
      RunStatements(e, stmts[..i + 1]) ==
        if Raises(m.faults) then (false, Env(m.store, Rest(m.faults)))
        else (true, Env(RunStatement(m.store, stmts[i]), Rest(m.faults)))
  {
    assert stmts[..i + 1][..i] == stmts[..i];
  }

  /** Once a statement has raised, the later statements are not run. */
  lemma {:induction false} RunStatementsStops(e: Env, stmts: seq<string>, i: nat)
    requires i <= |stmts| && !RunStatements(e, stmts[..i]).0
    ensures RunStatements(e, stmts) == RunStatements(e, stmts[..i])
    decreases |stmts|
  {
    if i < |stmts| {
      var init := stmts[..|stmts| - 1];
      assert init[..i] == stmts[..i];
      RunStatementsStops(e, init, i);
    } else {
      assert stmts[..i] == stmts;
    }
  }

  /**
   * `execute_script`: split the script into statements, run them in order,
   * commit, True; on an error, roll back and return False.  The script is
   * the schema's DDL, which MySQL commits statement by statement, so the
   * rollback leaves in place the statements that ran before the error.
   */
  function ScriptOutcome(e: Env, script: string): (r: (bool, Env))
    ensures r.0 ==> r.1.store == e.store.(log := e.store.log + Text.SplitStatements(script))
    ensures !r.0 ==>
      exists i :: 0 <= i < |Text.SplitStatements(script)| &&
        r.1.store == e.store.(log := e.store.log + Text.SplitStatements(script)[..i])
    ensures r.1.store.domains == e.store.domains && r.1.store.facts == e.store.facts
    ensures true !in e.faults ==> r.0 && true !in r.1.faults
  {
    RunStatements(e, Text.SplitStatements(script))
  }

  class DatabaseConnection {
    var connection: Link
    var cursor: CursorState
    /** The committed contents of the database the connection reaches. */
    var store: Store
    /** The driver calls still to come that raise. */
    var faults: seq<bool>

    /** `__init__`: no connection and no cursor yet. */
    constructor(server: Store, driverFaults: seq<bool>)
      ensures connection == Absent && cursor == NoCursor
      ensures store == server && faults == driverFaults
    {
      connection := Absent;
      cursor := NoCursor;
      store := server;
      faults := driverFaults;
    }

    /**
     * `connect`: open the connection, then its cursor.  A failure to connect
     * leaves `connection` as it was; a failure to make the cursor leaves the
     * new connection open without a cursor.  Either failure returns False.
     */
    method Connect() returns (ok: bool)
      modifies this
      ensures ok <==> ConnectSucceeds(old(faults))
      ensures connection == (if Raises(old(faults)) then old(connection) else Open)
      ensures cursor == (if ok then OpenCursor else old(cursor))
      ensures faults == AfterConnect(old(faults))
      ensures store == old(store)
    {
      if Raises(faults) {
        faults := Rest(faults);
        return false;
      }
      faults := Rest(faults);
      connection := Open;
      if Raises(faults) {
        faults := Rest(faults);
        return false;
      }
      faults := Rest(faults);
      cursor := OpenCursor;
      ok := true;
    }

    /** `disconnect`: close the cursor if there is one, and the connection if it is open. */
    method Disconnect()
      modifies this
      ensures cursor == (if old(cursor) == NoCursor then NoCursor else ClosedCursor)
      ensures connection == (if old(connection) == Open then Closed else old(connection))
      ensures store == old(store) && faults == old(faults)
    {
      if cursor != NoCursor {
        cursor := ClosedCursor;
      }
      if connection == Open {
        connection := Closed;
      }
    }

    method ExecuteScript(script: string) returns (ok: bool)
      requires connection == Open && cursor == OpenCursor
      modifies this
      ensures (ok, Env(store, faults)) == ScriptOutcome(old(Env(store, faults)), script)
      ensures connection == old(connection) && cursor == old(cursor)
    {
      var statements := Text.SplitStatements(script);
      var reached;
      ok, reached := ExecuteStatements(statements);
      // Commit on success, roll back on an error: either way each DDL
      // statement that ran has already been committed by the server.
      store := reached;
    }

    /** The statement loop of `execute_script`: the state it reaches, and whether no statement raised. */
    method ExecuteStatements(statements: seq<string>) returns (ok: bool, pending: Store)
      requires connection == Open && cursor == OpenCursor
      modifies this
      ensures (ok, Env(pending, faults)) == RunStatements(old(Env(store, faults)), statements)
      ensures store == old(store)
      ensures connection == old(connection) && cursor == old(cursor)
    {
      var e := Env(store, faults);
      pending := store;
      ok := true;
      var i := 0;
      assert statements[..0] == [];
      while i < |statements| && ok
        invariant 0 <= i <= |statements|
        invariant ok == RunStatements(e, statements[..i]).0
        invariant pending == RunStatements(e, statements[..i]).1.store
        invariant faults == RunStatements(e, statements[..i]).1.faults
        invariant store == e.store
        invariant connection == old(connection) && cursor == old(cursor)
      {
        RunStatementsStep(e, statements, i);
        if Raises(faults) {
          ok := false;
        } else {
          pending := RunStatement(pending, statements[i]);
        }
        faults := Rest(faults);
        i := i + 1;
      }
      if ok {
        assert statements[..i] == statements;
      } else {
        RunStatementsStops(e, statements, i);
      }
    }

    method ExecuteQuery(q: Query, params: Row) returns (ok: bool)
      requires connection == Open && cursor == OpenCursor
      modifies this
      ensures (ok, Env(store, faults)) == QueryOutcome(old(Env(store, faults)), q, params)
      ensures connection == old(connection) && cursor == old(cursor)
    {
      if Raises(faults) {
        ok := false;
      } else {
        var r := Apply(store, q, params);
        if r.Some? {
          store := r.value;
          ok := true;
        } else {
          ok := false;
        }
      }
      faults := Rest(faults);
    }

    method ExecuteMany(q: Query, rows: seq<Row>) returns (ok: bool)
      requires connection == Open && cursor == OpenCursor
      modifies this
      ensures (ok, Env(store, faults)) == ManyOutcome(old(Env(store, faults)), q, rows)
      ensures connection == old(connection) && cursor == old(cursor)
    {
      if Raises(faults) {
        ok := false;
      } else {
        var r := ApplyAll(store, q, rows);
        if r.Some? {
          store := r.value;
          ok := true;
        } else {
          ok := false;
        }
      }
      faults := Rest(faults);
    }

    method FetchOne(q: Query) returns (row: Option<Row>)
      requires connection == Open && cursor == OpenCursor
      modifies this
      ensures (row, Env(store, faults)) == FetchOneOutcome(old(Env(store, faults)), q)
      ensures connection == old(connection) && cursor == old(cursor)
    {
      row := None;
      if !Raises(faults) {
        var r := Select(store, q);
        if r.Some? && r.value != [] {
          row := Some(r.value[0]);
        }
      }
      faults := Rest(faults);
    }

    method FetchAll(q: Query) returns (rows: seq<Row>)
      requires connection == Open && cursor == OpenCursor
      modifies this
      ensures (rows, Env(store, faults)) == FetchAllOutcome(old(Env(store, faults)), q)
      ensures connection == old(connection) && cursor == old(cursor)
    {
      rows := [];
      if !Raises(faults) {
        var r := Select(store, q);
        if r.Some? {
          rows := r.value;
        }
      }
      faults := Rest(faults);
    }
  }
}
