/** The connection helpers: a bracket that always hands the connection back, a
    transaction bracket (begin, operation, commit, or rollback on failure, then
    release), and the builders of the `findOne`/`exists`/`insert` statements. */
module DbHelpers {
  import opened Base
  import opened Text
  import PgAdapter

  /** What happens on a pooled connection, in order. `Run(ok)` is the caller's
      operation; `Begin`/`Commit`/`Rollback` carry whether the driver call succeeded. */
  datatype Event = Run(ok: bool) | Begin(ok: bool) | Commit(ok: bool) | Rollback(ok: bool) | Release

  /** A pooled connection, reduced to the log of what was done on it. */
  class Connection {
    var events: seq<Event>

    constructor ()
      ensures events == []
    {
      events := [];
    }

    method Do(e: Event)
      modifies this
      ensures events == old(events) + [e]
    {
      events := events + [e];
    }
  }

  /** The error a failed driver step raises, as the operation's outcome type. */
  function Thrown<T>(o: Outcome<()>): (r: Outcome<T>)
    requires o.Fail?
    ensures r.Fail? && r.status == o.status
  {
    Fail(o.status, o.message)
  }

  /** `withConnection`: the operation's value or error, with the connection released
      exactly once afterwards on both paths. */
  method WithConnection<T>(conn: Connection, op: Outcome<T>) returns (r: Outcome<T>)
    modifies conn
    ensures r == op
    ensures conn.events == old(conn.events) + [Run(op.Ok?), Release]
  {
    conn.Do(Run(op.Ok?));
    r := op;
    conn.Do(Release);
  }

  /** The log `withTransaction` leaves, given which driver steps succeed. */
  function TransactionTrace(begin: bool, op: bool, commit: bool, rollback: bool): (t: seq<Event>)
    ensures |t| >= 3 && t[0] == Begin(begin)
    ensures t[|t| - 1] == Release
    ensures forall i :: 0 <= i < |t| - 1 ==> t[i] != Release
    ensures Run(true) in t <==> begin && op
    ensures Commit(true) in t <==> begin && op && commit
    ensures Commit(true) in t ==> forall i :: 0 <= i < |t| ==> !t[i].Rollback?
    ensures !(begin && op && commit) ==> t[|t| - 2] == Rollback(rollback)
    ensures forall i, j :: 0 <= i < j < |t| && t[i].Commit? ==> !t[j].Run?
  {
    if !begin then [Begin(false), Rollback(rollback), Release]
    else if !op then [Begin(true), Run(false), Rollback(rollback), Release]
    else if !commit then [Begin(true), Run(true), Commit(false), Rollback(rollback), Release]
    else [Begin(true), Run(true), Commit(true), Release]
  }

  /** What `withTransaction` answers: the operation's value when begin, operation and
      commit succeed; otherwise the first error, unless the rollback fails too, whose
      error then replaces it. */
  function TransactionOutcome<T>(begin: Outcome<()>, op: Outcome<T>, commit: Outcome<()>,
                                 rollback: Outcome<()>): (r: Outcome<T>)
    ensures r.Ok? <==> begin.Ok? && op.Ok? && commit.Ok?
    ensures r.Ok? ==> r == op
    ensures r.Fail? && rollback.Ok? && begin.Ok? && op.Fail? ==> r == op
  {
    if begin.Ok? && op.Ok? && commit.Ok? then op
    else if rollback.Fail? then Fail(rollback.status, rollback.message)
    else if begin.Fail? then Thrown<T>(begin)
    else if op.Fail? then op
    else Thrown<T>(commit)
  }

  /** `withTransaction`, with the outcome of each driver call and of the operation
      given as inputs (the operation is not run when `beginTransaction` fails). */
  method WithTransaction<T>(conn: Connection, begin: Outcome<()>, op: Outcome<T>,
                            commit: Outcome<()>, rollback: Outcome<()>) returns (r: Outcome<T>)
    modifies conn
    ensures r == TransactionOutcome(begin, op, commit, rollback)
    ensures conn.events == old(conn.events) + TransactionTrace(begin.Ok?, op.Ok?, commit.Ok?, rollback.Ok?)
  {
    var failed: Option<Outcome<T>> := None;
    conn.Do(Begin(begin.Ok?));
    if begin.Fail? {
      failed := Some(Thrown<T>(begin));
    } else {
      conn.Do(Run(op.Ok?));
      if op.Fail? {
        failed := Some(op);
      } else {
        conn.Do(Commit(commit.Ok?));
        if commit.Fail? {
          failed := Some(Thrown<T>(commit));
        }
      }
    }
    if failed.Some? {
      conn.Do(Rollback(rollback.Ok?));
      r := if rollback.Fail? then Fail(rollback.status, rollback.message) else failed.value;
    } else {
      r := op;
    }
    conn.Do(Release);
  }

  /** A row as column name to value. */
  type Row = map<string, string>

  /** `k1 = ? AND k2 = ? ...` over the keys of the `where` object, in key order. */
  function WhereClause(keys: seq<string>): (c: string)
  {
    Join(seq(|keys|, i requires 0 <= i < |keys| => keys[i] + " = ?"), " AND ")
  }

  function FindOneSql(table: string, keys: seq<string>): (sql: string)
  {
    "SELECT * FROM " + table + " WHERE " + WhereClause(keys) + " LIMIT 1"
  }

  function InsertSql(table: string, keys: seq<string>): (sql: string)
  {
    "INSERT INTO " + table + " (" + Join(keys, ", ") + ") VALUES ("
      + Join(MarkList(|keys|), ", ") + ")"
  }

  predicate NoMarks(keys: seq<string>)
  {
    forall i :: 0 <= i < |keys| ==> '?' !in keys[i]
  }

  /** Marks of a join: those of the parts, the separator contributing none. */
  lemma {:induction false} JoinMarks(parts: seq<string>, sep: string)
    requires '?' !in sep
    ensures PgAdapter.Marks(Join(parts, sep)) == SumMarks(parts)
    decreases |parts|
  {
    if |parts| > 1 {
      var init := parts[..|parts| - 1];
      JoinMarks(init, sep);
      PgAdapter.MarksConcat(Join(init, sep) + sep, parts[|parts| - 1]);
      PgAdapter.MarksConcat(Join(init, sep), sep);
    }
  }

  function SumMarks(parts: seq<string>): nat
  {
    if parts == [] then 0 else SumMarks(parts[..|parts| - 1]) + PgAdapter.Marks(parts[|parts| - 1])
  }

  lemma {:induction false} SumMarksEach(parts: seq<string>, m: nat)
    requires forall i :: 0 <= i < |parts| ==> PgAdapter.Marks(parts[i]) == m
    ensures SumMarks(parts) == |parts| * m
    decreases |parts|
  {
    if parts != [] {
      var init := parts[..|parts| - 1];
      assert forall i :: 0 <= i < |init| ==> PgAdapter.Marks(init[i]) == m by {
        assert forall i :: 0 <= i < |init| ==> init[i] == parts[i];
      }
      SumMarksEach(init, m);
      assert SumMarks(parts) == SumMarks(init) + m;
      MulSucc(|init|, m);
    }
  }

  lemma MulSucc(n: nat, m: nat)
    ensures (n + 1) * m == n * m + m
  {
  }

  /** Marks of five concatenated pieces add up. */
  lemma Marks5(a: string, b: string, c: string, d: string, e: string)
    ensures PgAdapter.Marks(a + b + c + d + e)
      == PgAdapter.Marks(a) + PgAdapter.Marks(b) + PgAdapter.Marks(c) + PgAdapter.Marks(d) + PgAdapter.Marks(e)
  {
    PgAdapter.MarksConcat(a + b + c + d, e);
    PgAdapter.MarksConcat(a + b + c, d);
    PgAdapter.MarksConcat(a + b, c);
    PgAdapter.MarksConcat(a, b);
  }

  lemma WhereMarks(keys: seq<string>)
    requires NoMarks(keys)
    ensures PgAdapter.Marks(WhereClause(keys)) == |keys|
  {
    var parts := seq(|keys|, i requires 0 <= i < |keys| => keys[i] + " = ?");
    forall i | 0 <= i < |parts| ensures PgAdapter.Marks(parts[i]) == 1 {
      PgAdapter.MarksConcat(keys[i], " = ?");
      assert PgAdapter.Marks(" = ?") == 1 by {
        assert " = ?"[..3] == " = ";
      }
    }
    SumMarksEach(parts, 1);
    JoinMarks(parts, " AND ");
  }

  /** `findOne` sends exactly one '?' per key, so the values (in the same key order)
      fill the placeholders one to one. */
  lemma FindOneMarks(table: string, keys: seq<string>)
    requires '?' !in table && NoMarks(keys)
    ensures PgAdapter.Marks(FindOneSql(table, keys)) == |keys|
  {
    WhereMarks(keys);
    Marks5("SELECT * FROM ", table, " WHERE ", WhereClause(keys), " LIMIT 1");
  }

  function MarkList(n: nat): (m: seq<string>)
    ensures |m| == n && forall i :: 0 <= i < n ==> m[i] == "?"
  {
    seq(n, i requires 0 <= i < n => "?")
  }

  lemma ValuesMarks(n: nat)
    ensures PgAdapter.Marks(Join(MarkList(n), ", ")) == n
  {
    var marks := MarkList(n);
    forall i | 0 <= i < n ensures PgAdapter.Marks(marks[i]) == 1 {
      assert marks[i][..0] == [];
    }
    SumMarksEach(marks, 1);
    JoinMarks(marks, ", ");
  }

  lemma ColumnsMarks(keys: seq<string>)
    requires NoMarks(keys)
    ensures PgAdapter.Marks(Join(keys, ", ")) == 0
  {
    SumMarksEach(keys, 0);
    JoinMarks(keys, ", ");
  }

  lemma InsertLiteralsUnmarked()
    ensures PgAdapter.Marks("INSERT INTO ") == 0 && PgAdapter.Marks(" (") == 0
    ensures PgAdapter.Marks(") VALUES (") == 0
  {
  }

  /** `insert` sends one column and one '?' per key of `data`. */
  lemma {:induction false} InsertMarks(table: string, keys: seq<string>)
    requires '?' !in table && NoMarks(keys)
    ensures PgAdapter.Marks(InsertSql(table, keys)) == |keys|
  {
    var pre := "INSERT INTO " + table + " (" + Join(keys, ", ") + ") VALUES (";
    var values := Join(MarkList(|keys|), ", ");
    assert PgAdapter.Marks(pre) == 0 by {
      ColumnsMarks(keys);
      InsertLiteralsUnmarked();
      Marks5("INSERT INTO ", table, " (", Join(keys, ", "), ") VALUES (");
    }
    assert PgAdapter.Marks(values) == |keys| by {
      ValuesMarks(|keys|);
    }
    PgAdapter.MarksConcat(pre, values);
    PgAdapter.MarksConcat(pre + values, ")");
  }

  /** A row satisfies the `where` object when it holds every given column value. */
  predicate Matches(row: Row, keys: seq<string>, values: seq<string>)
    requires |keys| == |values|
  {
    forall i :: 0 <= i < |keys| ==> keys[i] in row && row[keys[i]] == values[i]
  }

  /** `findOne`: `rows[0] || null` over the rows the statement selects; the table's
      rows are given in the order the database returns them. An empty `where` object
      leaves `WHERE  LIMIT 1`, which the database refuses. */
  function FindOne(table: seq<Row>, keys: seq<string>, values: seq<string>): (r: Outcome<Option<Row>>)
    requires |keys| == |values|
    ensures keys == [] <==> r.Fail?
    ensures r.Ok? && r.value.Some? ==> r.value.value in table && Matches(r.value.value, keys, values)
    ensures r.Ok? && r.value.None? ==> forall i :: 0 <= i < |table| ==> !Matches(table[i], keys, values)
    ensures r.Ok? && r.value.Some? ==>
      exists i :: 0 <= i < |table| && table[i] == r.value.value &&
        forall j :: 0 <= j < i ==> !Matches(table[j], keys, values)
  {
    if keys == [] then Fail(ServerError, "syntax error") else Ok(FirstMatch(table, keys, values))
  }

  function FirstMatch(table: seq<Row>, keys: seq<string>, values: seq<string>): (r: Option<Row>)
    requires |keys| == |values|
    ensures r.None? ==> forall i :: 0 <= i < |table| ==> !Matches(table[i], keys, values)
    ensures r.Some? ==>
      exists i :: 0 <= i < |table| && table[i] == r.value && Matches(table[i], keys, values) &&
        forall j :: 0 <= j < i ==> !Matches(table[j], keys, values)
  {
    if table == [] then None
    else if Matches(table[0], keys, values) then Some(table[0])
    else
      var r := FirstMatch(table[1..], keys, values);
      if r.Some? then
        var i :| 0 <= i < |table[1..]| && table[1..][i] == r.value &&
          Matches(table[1..][i], keys, values) && forall j :: 0 <= j < i ==> !Matches(table[1..][j], keys, values);
        assert table[i + 1] == r.value;
        assert forall j :: 0 <= j < i + 1 ==> !Matches(table[j], keys, values) by {
          forall j | 0 <= j < i + 1 ensures !Matches(table[j], keys, values) {
            if j > 0 { assert table[j] == table[1..][j - 1]; }
          }
        }
        r
      else r
  }

  /** `exists`: `!!record`, i.e. some row holds the given values. */
  function Exists(table: seq<Row>, keys: seq<string>, values: seq<string>): (r: Outcome<bool>)
    requires |keys| == |values|
    ensures r.Ok? <==> keys != []
    ensures r.Ok? ==> (r.value <==> exists i :: 0 <= i < |table| && Matches(table[i], keys, values))
  {
    match FindOne(table, keys, values)
    case Ok(found) => Ok(found.Some?)
    case Fail(s, m) => Fail(s, m)
  }
}
