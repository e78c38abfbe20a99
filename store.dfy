/**
 * The MySQL database the loader writes to, as its committed contents: the
 * domain (reference) tables with their AUTO_INCREMENT ids, the fact tables
 * with their primary keys, and the log of schema statements run against it.
 * Every write the loader issues is an `INSERT IGNORE`.
 */
module Storage {
  import opened Wrappers
  import Seqs

  /** A cell as the driver passes it: SQL NULL, an integer, a text or a boolean. */
  datatype Value = Null | Int(i: int) | Str(s: string) | Bool(b: bool)

  type Row = seq<Value>

  // ---------------------------------------------------------- domain tables

  datatype Entry = Entry(id: int, value: string)

  /**
   * A domain table: an AUTO_INCREMENT id column and a UNIQUE value column,
   * its rows in insertion order, and the next id the counter hands out.
   */
  datatype DomainTable = DomainTable(idColumn: string, valueColumn: string, entries: seq<Entry>, nextId: int)

  predicate HasValue(d: DomainTable, v: string) {
    exists k :: 0 <= k < |d.entries| && d.entries[k].value == v
  }

  /** Ids are positive, below the counter and distinct; values are distinct. */
  predicate ValidDomain(d: DomainTable) {
    d.nextId > 0 &&
    (forall k :: 0 <= k < |d.entries| ==> 0 < d.entries[k].id < d.nextId) &&
    (forall j, k :: 0 <= j < k < |d.entries| ==>
      d.entries[j].id != d.entries[k].id && d.entries[j].value != d.entries[k].value)
  }

  /**
   * `INSERT IGNORE INTO t (column) VALUES (v)`: a value already stored is
   * ignored; a new one is appended under the next id.
   */
  function InsertValue(d: DomainTable, v: string): (r: DomainTable)
    ensures r.idColumn == d.idColumn && r.valueColumn == d.valueColumn
    ensures d.entries <= r.entries && |r.entries| <= |d.entries| + 1
    ensures HasValue(r, v)
    ensures HasValue(d, v) ==> r == d
    ensures forall k :: |d.entries| <= k < |r.entries| ==> r.entries[k].value == v
    ensures ValidDomain(d) ==> ValidDomain(r)
  {
    if HasValue(d, v) then d
    else
      var r := d.(entries := d.entries + [Entry(d.nextId, v)], nextId := d.nextId + 1);
      assert r.entries[|d.entries|].value == v;
      r
  }

  /** A value stored in a table is still stored once rows are appended. */
  lemma HasValueGrows(d: DomainTable, e: DomainTable, v: string)
    requires HasValue(d, v) && d.entries <= e.entries
    ensures HasValue(e, v)
  {
    var k :| 0 <= k < |d.entries| && d.entries[k].value == v;
    assert e.entries[k] == d.entries[k];
  }

  /** One `INSERT IGNORE` per value, in order. */
  function InsertValues(d: DomainTable, vs: seq<string>): (r: DomainTable)
    ensures r.idColumn == d.idColumn && r.valueColumn == d.valueColumn
    ensures d.entries <= r.entries
    ensures forall i :: 0 <= i < |vs| ==> HasValue(r, vs[i])
    ensures forall k :: |d.entries| <= k < |r.entries| ==> r.entries[k].value in vs
    ensures ValidDomain(d) ==> ValidDomain(r)
    decreases |vs|
  {
    if vs == [] then d
    else
      var init := vs[..|vs| - 1];
      var m := InsertValues(d, init);
      var r := InsertValue(m, vs[|vs| - 1]);
      forall i | 0 <= i < |vs| ensures HasValue(r, vs[i]) {
        if i < |vs| - 1 {
          assert vs[i] == init[i];
          HasValueGrows(m, r, vs[i]);
        }
      }
      forall k | |d.entries| <= k < |r.entries| ensures r.entries[k].value in vs {
        if k < |m.entries| {
          assert r.entries[k] == m.entries[k];
          assert m.entries[k].value in init;
        } else {
          assert r.entries[k].value == vs[|vs| - 1];
        }
      }
      r
  }

  /** Inserting values that are all stored already changes nothing. */
  lemma {:induction false} InsertValuesPresent(d: DomainTable, vs: seq<string>)
    requires forall i :: 0 <= i < |vs| ==> HasValue(d, vs[i])
    ensures InsertValues(d, vs) == d
    decreases |vs|
  {
    if vs != [] {
      var init := vs[..|vs| - 1];
      assert forall i :: 0 <= i < |init| ==> init[i] == vs[i];
      InsertValuesPresent(d, init);
    }
  }

  /** Running the same inserts a second time leaves the table as the first run left it. */
  lemma InsertValuesRerun(d: DomainTable, vs: seq<string>)
    ensures InsertValues(InsertValues(d, vs), vs) == InsertValues(d, vs)
  {
    InsertValuesPresent(InsertValues(d, vs), vs);
  }

  /** A SELECT of `(id, value)` returns one two-cell row per entry. */
  function EntryRow(e: Entry): Row { [Int(e.id), Str(e.value)] }

  // ------------------------------------------------------------ fact tables

  /**
   * A fact table: its number of columns, the width of its primary key (the
   * leading `keyWidth` columns, as the schema declares them) and its rows.
   */
  datatype FactTable = FactTable(columns: nat, keyWidth: nat, rows: seq<Row>)

  function Key(t: FactTable, row: Row): Row {
    if |row| <= t.keyWidth then row else row[..t.keyWidth]
  }

  predicate HasKey(t: FactTable, key: Row) {
    exists k :: 0 <= k < |t.rows| && Key(t, t.rows[k]) == key
  }

  /** Every row has the table's width and no two rows share a primary key. */
  predicate ValidFacts(t: FactTable) {
    t.keyWidth <= t.columns &&
    (forall k :: 0 <= k < |t.rows| ==> |t.rows[k]| == t.columns) &&
    (forall j, k :: 0 <= j < k < |t.rows| ==> Key(t, t.rows[j]) != Key(t, t.rows[k]))
  }

  /** `INSERT IGNORE` of one row: a row whose primary key is taken is ignored. */
  function InsertRow(t: FactTable, row: Row): (r: FactTable)
    requires |row| == t.columns
    ensures r.columns == t.columns && r.keyWidth == t.keyWidth
    ensures t.rows <= r.rows && |r.rows| <= |t.rows| + 1
    ensures HasKey(r, Key(t, row))
    ensures HasKey(t, Key(t, row)) ==> r == t
    ensures ValidFacts(t) ==> ValidFacts(r)
  {
    if HasKey(t, Key(t, row)) then t
    else
      var r := t.(rows := t.rows + [row]);
      assert r.rows[|t.rows|] == row;
      r
  }

  /** A key stored in a table is still stored once rows are appended. */
  lemma HasKeyGrows(t: FactTable, u: FactTable, key: Row)
    requires HasKey(t, key) && t.rows <= u.rows && t.keyWidth == u.keyWidth
    ensures HasKey(u, key)
  {
    var k :| 0 <= k < |t.rows| && Key(t, t.rows[k]) == key;
    assert u.rows[k] == t.rows[k];
  }

  // ------------------------------------------------------------------ store

  /** The committed contents of the database. */
  datatype Store = Store(log: seq<string>, domains: map<string, DomainTable>, facts: map<string, FactTable>)

  predicate ValidStore(s: Store) {
    (forall t :: t in s.domains ==> ValidDomain(s.domains[t])) &&
    (forall t :: t in s.facts ==> ValidFacts(s.facts[t]))
  }

  /** The statements the loader sends through the driver. */
  datatype Query =
    | Statement(text: string)                                     // a statement of the schema script
    | InsertDomainValue(table: string, column: string)            // INSERT IGNORE INTO table (column) VALUES (%s)
    | SelectDomain(table: string, idColumn: string, column: string) // SELECT idColumn, column FROM table
    | InsertFacts(table: string)                                  // INSERT IGNORE INTO table (...) VALUES (%s, ...)

  /** A schema statement is recorded; the schema's own contents are not interpreted. */
  function RunStatement(s: Store, text: string): Store {
    s.(log := s.log + [text])
  }

  /**
   * Executing one statement with its parameters.  None is an SQL error: an
   * unknown table or column, or parameters that do not match the placeholders.
   */
  function Apply(s: Store, q: Query, params: Row): (r: Option<Store>)
    ensures r.Some? ==> r.value.domains.Keys == s.domains.Keys && r.value.facts.Keys == s.facts.Keys
    ensures ValidStore(s) && r.Some? ==> ValidStore(r.value)
    ensures r.Some? && !q.Statement? ==> r.value.log == s.log
    ensures r.Some? && q.SelectDomain? ==> r.value == s
    ensures r.Some? && q.InsertDomainValue? ==>
      q.table in s.domains && |params| == 1 && params[0].Str? &&
      s.domains[q.table].entries <= r.value.domains[q.table].entries &&
      HasValue(r.value.domains[q.table], params[0].s)
    ensures r.Some? && q.InsertFacts? ==>
      q.table in s.facts && |params| == s.facts[q.table].columns &&
      s.facts[q.table].rows <= r.value.facts[q.table].rows &&
      HasKey(r.value.facts[q.table], Key(s.facts[q.table], params))
  {
    match q
    case Statement(text) => Some(RunStatement(s, text))
    case InsertDomainValue(t, c) =>
      if t in s.domains && c == s.domains[t].valueColumn && |params| == 1 && params[0].Str? then
        Some(s.(domains := s.domains[t := InsertValue(s.domains[t], params[0].s)]))
      else None
    case SelectDomain(t, idc, c) =>
      if t in s.domains && idc == s.domains[t].idColumn && c == s.domains[t].valueColumn then Some(s)
      else None
    case InsertFacts(t) =>
      if t in s.facts && |params| == s.facts[t].columns then
        Some(s.(facts := s.facts[t := InsertRow(s.facts[t], params)]))
      else None
  }

  /** The rows a query returns; None for an SQL error or a statement that returns no rows. */
  function Select(s: Store, q: Query): (r: Option<seq<Row>>)
    ensures r.Some? ==> q.SelectDomain? && q.table in s.domains
    ensures r.Some? ==> |r.value| == |s.domains[q.table].entries|
    ensures r.Some? ==> forall k :: 0 <= k < |r.value| ==>
      r.value[k] == [Int(s.domains[q.table].entries[k].id), Str(s.domains[q.table].entries[k].value)]
  {
    match q
    case SelectDomain(t, idc, c) =>
      if t in s.domains && idc == s.domains[t].idColumn && c == s.domains[t].valueColumn
      then Some(Seqs.Map(EntryRow, s.domains[t].entries))
      else None
    case _ => None
  }

  /** `executemany`: the statement once per parameter row; one error fails the whole call. */
  function ApplyAll(s: Store, q: Query, rows: seq<Row>): (r: Option<Store>)
    ensures r.Some? ==> r.value.domains.Keys == s.domains.Keys && r.value.facts.Keys == s.facts.Keys
    ensures ValidStore(s) && r.Some? ==> ValidStore(r.value)
    decreases |rows|
  {
    if rows == [] then Some(s)
    else
      match ApplyAll(s, q, rows[..|rows| - 1])
      case None => None
      case Some(m) => Apply(m, q, rows[|rows| - 1])
  }

  /** Sending `a + b` in one call is sending `a`, then `b`. */
  lemma {:induction false} ApplyAllConcat(s: Store, q: Query, a: seq<Row>, b: seq<Row>)
    ensures ApplyAll(s, q, a + b) ==
      (match ApplyAll(s, q, a) case None => None case Some(m) => ApplyAll(m, q, b))
    decreases |b|
  {
    if b == [] {
      assert a + b == a;
    } else {
      var b' := b[..|b| - 1];
      ApplyAllConcat(s, q, a, b');
      assert (a + b)[..|a + b| - 1] == a + b';
    }
  }

  /** Rows of the right width always go in; the rows already stored stay, and every key sent is stored. */
  lemma {:induction false} InsertFactsSucceeds(s: Store, t: string, rows: seq<Row>)
    requires t in s.facts
    requires forall i :: 0 <= i < |rows| ==> |rows[i]| == s.facts[t].columns
    ensures ApplyAll(s, InsertFacts(t), rows).Some?
    ensures var r := ApplyAll(s, InsertFacts(t), rows).value;
      r.facts[t].columns == s.facts[t].columns && r.facts[t].keyWidth == s.facts[t].keyWidth &&
      s.facts[t].rows <= r.facts[t].rows &&
      forall i :: 0 <= i < |rows| ==> HasKey(r.facts[t], Key(s.facts[t], rows[i]))
    decreases |rows|
  {
    if rows != [] {
      var init := rows[..|rows| - 1];
      InsertFactsSucceeds(s, t, init);
      var m := ApplyAll(s, InsertFacts(t), init).value;
      var r := ApplyAll(s, InsertFacts(t), rows).value;
      assert r.facts[t] == InsertRow(m.facts[t], rows[|rows| - 1]);
      forall i | 0 <= i < |rows| ensures HasKey(r.facts[t], Key(s.facts[t], rows[i])) {
        if i < |rows| - 1 {
          assert rows[i] == init[i];
          HasKeyGrows(m.facts[t], r.facts[t], Key(s.facts[t], rows[i]));
        }
      }
    }
  }

  /** Rows whose keys are all stored already change nothing. */
  lemma {:induction false} InsertFactsPresent(s: Store, t: string, rows: seq<Row>)
    requires t in s.facts
    requires forall i :: 0 <= i < |rows| ==>
      |rows[i]| == s.facts[t].columns && HasKey(s.facts[t], Key(s.facts[t], rows[i]))
    ensures ApplyAll(s, InsertFacts(t), rows) == Some(s)
    decreases |rows|
  {
    if rows != [] {
      var init := rows[..|rows| - 1];
      assert forall i :: 0 <= i < |init| ==> init[i] == rows[i];
      InsertFactsPresent(s, t, init);
      assert s.facts[t := s.facts[t]] == s.facts;
    }
  }

  /** Loading the same fact rows a second time leaves the store as the first load left it. */
  lemma InsertFactsRerun(s: Store, t: string, rows: seq<Row>)
    requires t in s.facts
    requires forall i :: 0 <= i < |rows| ==> |rows[i]| == s.facts[t].columns
    ensures ApplyAll(s, InsertFacts(t), rows).Some?
    ensures var r := ApplyAll(s, InsertFacts(t), rows).value;
      ApplyAll(r, InsertFacts(t), rows) == Some(r)
  {
    InsertFactsSucceeds(s, t, rows);
    var r := ApplyAll(s, InsertFacts(t), rows).value;
    assert forall i :: 0 <= i < |rows| ==> Key(s.facts[t], rows[i]) == Key(r.facts[t], rows[i]);
    InsertFactsPresent(r, t, rows);
  }
  /**
   * `r` is `s` with rows appended to fact table `t` at most: the domain
   * tables, the log and every other fact table are as they were, and `t`
   * keeps its shape and its earlier rows.
   */
  predicate GrowsOnly(s: Store, r: Store, t: string) {
    r.domains == s.domains && r.log == s.log && r.facts.Keys == s.facts.Keys &&
    (forall u :: u in s.facts && u != t ==> r.facts[u] == s.facts[u]) &&
    (t in s.facts ==>
       r.facts[t].columns == s.facts[t].columns && r.facts[t].keyWidth == s.facts[t].keyWidth &&
       s.facts[t].rows <= r.facts[t].rows)
  }

  lemma GrowsOnlyTrans(s: Store, m: Store, r: Store, t: string)
    requires GrowsOnly(s, m, t) && GrowsOnly(m, r, t)
    ensures GrowsOnly(s, r, t)
  {
  }

  /** One fact row sent to `t` only appends to `t`. */
  lemma InsertFactFrame(s: Store, t: string, row: Row)
    ensures var r := Apply(s, InsertFacts(t), row);
      r.Some? ==> GrowsOnly(s, r.value, t)
  {
  }

  /**
   * An `executemany` of fact rows into `t` only appends to `t`, and it
   * succeeds only when `t` exists and every row has its width.
   */
  lemma {:induction false} InsertFactsFrame(s: Store, t: string, rows: seq<Row>)
    ensures var r := ApplyAll(s, InsertFacts(t), rows);
      r.Some? ==>
        GrowsOnly(s, r.value, t) &&
        forall i :: 0 <= i < |rows| ==> t in s.facts && |rows[i]| == s.facts[t].columns
    decreases |rows|
  {
    if rows != [] {
      var init := rows[..|rows| - 1];
      var last := rows[|rows| - 1];
      InsertFactsFrame(s, t, init);
      var r := ApplyAll(s, InsertFacts(t), rows);
      if r.Some? {
        var m := ApplyAll(s, InsertFacts(t), init).value;
        assert r == Apply(m, InsertFacts(t), last);
        InsertFactFrame(m, t, last);
        GrowsOnlyTrans(s, m, r.value, t);
        assert t in m.facts && |last| == m.facts[t].columns;
        assert t in s.facts && m.facts[t].columns == s.facts[t].columns;
        forall i | 0 <= i < |rows| ensures t in s.facts && |rows[i]| == s.facts[t].columns {
          if i < |init| {
            assert rows[i] == init[i];
          } else {
            assert rows[i] == last;
          }
        }
      }
    }
  }
}
