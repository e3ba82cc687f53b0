/** The query helpers of the database interface. The MySQL connection is
    the `execute` input: it maps a query text to what the driver returns
    (rows for a query that reads, the number of affected rows otherwise)
    or to the MySQLError it raises. */
module Database {
  import opened Wrappers
  import opened Strings
  import opened Codes

  /** A column value as the driver hands it back. */
  datatype Value = VString(s: string) | VInt(i: int) | VBool(b: bool) | VNull

  type Row = seq<Value>

  /** What `Database.run_query` returns. */
  datatype QueryResult = Rows(rows: seq<Row>) | Affected(count: int)

  /** The exceptions the helpers let escape. */
  datatype DbError =
    | MySQLError           // raised by the driver, or by RunQuery's own rule
    | IndexError           // `results[0][0]` on a row without columns
    | TypeError            // `len(...)` of an affected-row count

  type Executor = string -> Result<QueryResult, DbError>

  const UserTable := "user"
  const AliasTable := "alias"

  /** Python's `str(value)`, as an f-string renders it. */
  function ValueText(v: Value): string
  {
    match v
    case VString(s) => s
    case VInt(i) => IntToString(i)
    case VBool(b) => if b then "True" else "False"
    case VNull => "None"
  }

  /** Only a query starting with `SELECT` or `select` counts as a read. */
  predicate IsSelect(query: string)
  {
    StartsWith(query, "SELECT") || StartsWith(query, "select")
  }

  /** `run_query(query)`: a query that does not read and affects no row
      raises MySQLError; otherwise the driver's answer is returned. */
  function RunQuery(execute: Executor, query: string): (r: Result<QueryResult, DbError>)
    ensures r.Err? <==> execute(query).Err? || (!IsSelect(query) && execute(query) == Ok(Affected(0)))
    ensures r.Ok? ==> r == execute(query)
  {
    match execute(query)
    case Err(e) => Err(e)
    case Ok(results) =>
      if !StartsWith(query, "SELECT") && !StartsWith(query, "select") && results == Affected(0) then
        Err(MySQLError)
      else Ok(results)
  }

  /** A read is never refused by the affected-rows rule, and a mixed-case
      `Select` is not a read. */
  lemma SelectNotRefused(execute: Executor, query: string)
    requires IsSelect(query) && execute(query).Ok?
    ensures RunQuery(execute, query) == execute(query)
  {
  }

  lemma MixedCaseIsNotSelect(rest: string)
    ensures !IsSelect("Select" + rest)
  {
    assert ("Select" + rest)[1] == 'e';
  }

  /** `run_query_getting_status(query)`. */
  function RunQueryGettingStatus(execute: Executor, query: string): (c: Code)
    ensures c == Success <==> RunQuery(execute, query).Ok?
    ensures c != Success ==> c == OperationError
  {
    match RunQuery(execute, query)
    case Ok(_) => Success
    case Err(_) => OperationError
  }

  /** `len(results)` of a read: only a list of rows has one. */
  function RowsOf(r: QueryResult): Result<seq<Row>, DbError>
  {
    match r
    case Rows(rows) => Ok(rows)
    case Affected(_) => Err(TypeError)
  }

  /** `run_query(query)` used as a list of rows, as `len(...)` and
      indexing use it. */
  function ReadRows(execute: Executor, query: string): (r: Result<seq<Row>, DbError>)
    ensures r.Ok? ==> execute(query) == Ok(Rows(r.value))
    ensures IsSelect(query) ==> (r.Ok? <==> execute(query).Ok? && execute(query).value.Rows?)
  {
    match RunQuery(execute, query)
    case Err(e) => Err(e)
    case Ok(results) => RowsOf(results)
  }

  /** `get_last_insert_id(table_name, identifier)`: the first column of the
      first row, or 0 when the table is empty. */
  function GetLastInsertId(execute: Executor, tableName: string, identifier: string): (r: Result<Value, DbError>)
    ensures var q := "SELECT " + identifier + " from " + tableName + " ORDER BY id desc LIMIT 1";
      && (execute(q).Err? ==> r == Err(execute(q).error))
      && (execute(q) == Ok(Rows([])) ==> r == Ok(VInt(0)))
      && (execute(q).Ok? && execute(q).value.Rows? && |execute(q).value.rows| > 0 && |execute(q).value.rows[0]| > 0
          ==> r == Ok(execute(q).value.rows[0][0]))
  {
    var query := "SELECT " + identifier + " from " + tableName + " ORDER BY id desc LIMIT 1";
    match RunQuery(execute, query)
    case Err(e) => Err(e)
    case Ok(results) =>
      match RowsOf(results)
      case Err(e) => Err(e)
      case Ok(rows) =>
        if |rows| > 0 then
          if |rows[0]| > 0 then Ok(rows[0][0]) else Err(IndexError)
        else Ok(VInt(0))
  }

  /** How a WHERE condition writes a value: strings single-quoted, anything
      else as `str(value)`. */
  function FormatValue(v: Value): string
  {
    if v.VString? then "'" + v.s + "'" else ValueText(v)
  }

  function Condition(column: string, v: Value): string
  {
    column + "=" + FormatValue(v)
  }

  function Conditions(parameters: seq<(string, Value)>): (cs: seq<string>)
    ensures |cs| == |parameters|
  {
    seq(|parameters|, i requires 0 <= i < |parameters| => Condition(parameters[i].0, parameters[i].1))
  }

  /** The query `build_select_query_from_object_parameters` is meant to
      write: every condition, in the dictionary's order, joined by `and`,
      with one space left at the end. With no condition the cut of the
      trailing `and ` eats into the keyword, leaving `... WH`. */
  function SelectQuery(parameters: seq<(string, Value)>, tableName: string): string
  {
    if |parameters| == 0 then "SELECT * FROM " + tableName + " WH"
    else "SELECT * FROM " + tableName + " WHERE " + JoinWith(Conditions(parameters), " and ") + " "
  }

  /** A built query always reads, so RunQuery's affected-rows rule never
      refuses it. */
  lemma SelectQueryIsRead(parameters: seq<(string, Value)>, tableName: string)
    ensures IsSelect(SelectQuery(parameters, tableName))
  {
    var q := SelectQuery(parameters, tableName);
    assert q[..6] == "SELECT";
  }

  /** `build_select_query_from_object_parameters(parameters, table_name)`. */
  method BuildSelectQuery(parameters: seq<(string, Value)>, tableName: string) returns (query: string)
    ensures query == SelectQuery(parameters, tableName)
  {
    var prefix := "SELECT * FROM " + tableName + " WHERE ";
    var queryString := prefix;
    var i := 0;
    while i < |parameters|
      invariant 0 <= i <= |parameters|
      invariant queryString == prefix + Clauses(parameters[..i])
    {
      var (parameter, value) := parameters[i];
      var formattedValue := FormatValue(value);
      assert parameters[..i + 1][..i] == parameters[..i];
      AppendAssoc(prefix, Clauses(parameters[..i]), parameter + "=" + formattedValue + " and ");
      queryString := queryString + (parameter + "=" + formattedValue + " and ");
      i := i + 1;
    }
    assert parameters[..i] == parameters;
    query := queryString[..|queryString| - 4];
    CutClauses(parameters, tableName);
  }

  /** Cutting the last four characters of the accumulated text gives the
      query SelectQuery describes. */
  lemma CutClauses(parameters: seq<(string, Value)>, tableName: string)
    ensures var q := "SELECT * FROM " + tableName + " WHERE " + Clauses(parameters);
      q[..|q| - 4] == SelectQuery(parameters, tableName)
  {
    var prefix := "SELECT * FROM " + tableName + " WHERE ";
    if |parameters| > 0 {
      var joined := JoinWith(Conditions(parameters), " and ");
      ClausesJoin(parameters);
      assert joined + " and " == (joined + " ") + "and ";
      DropLast4(prefix, joined + " ", "and ");
    } else {
      CutKeyword(tableName);
    }
  }

  /** Every condition followed by ` and `, as the loop of
      `build_select_query_from_object_parameters` accumulates them. */
  function Clauses(parameters: seq<(string, Value)>): string
  {
    if |parameters| == 0 then ""
    else
      var last := parameters[|parameters| - 1];
      Clauses(parameters[..|parameters| - 1]) + Condition(last.0, last.1) + " and "
  }

  /** The accumulated clauses are the conditions joined by `and`, plus one
      trailing ` and `. */
  lemma {:induction false} ClausesJoin(parameters: seq<(string, Value)>)
    requires |parameters| > 0
    ensures Clauses(parameters) == JoinWith(Conditions(parameters), " and ") + " and "
  {
    var n := |parameters|;
    var init := parameters[..n - 1];
    assert Conditions(parameters)[..n - 1] == Conditions(init);
    if n > 1 {
      ClausesJoin(init);
    }
  }

  /** With no condition, cutting four characters leaves `WH` of `WHERE`. */
  lemma CutKeyword(tableName: string)
    ensures var p := "SELECT * FROM " + tableName + " WHERE ";
      p[..|p| - 4] == "SELECT * FROM " + tableName + " WH"
  {
    DropLast4("SELECT * FROM " + tableName, " WH", "ERE ");
    assert "SELECT * FROM " + tableName + " WHERE " == ("SELECT * FROM " + tableName) + (" WH" + "ERE ");
  }

  /** Removing the last four characters of `a + (b + c)`, with `c` four
      long, leaves `a + b`. */
  lemma DropLast4(a: string, b: string, c: string)
    requires |c| == 4
    ensures (a + (b + c))[..|a| + |b|] == a + b
  {
    AppendAssoc(a, b, c);
    assert (a + b + c)[..|a + b|] == a + b;
  }

  /** `item_exists(object_parameters, table_name)`: whether the query built
      from the parameters returns at least one row. */
  method ItemExists(execute: Executor, parameters: seq<(string, Value)>, tableName: string)
    returns (r: Result<bool, DbError>)
    ensures var q := SelectQuery(parameters, tableName);
      && (RunQuery(execute, q).Err? ==> r == Err(RunQuery(execute, q).error))
      && (execute(q).Ok? && execute(q).value.Rows? ==> r == Ok(|execute(q).value.rows| > 0))
  {
    var query := BuildSelectQuery(parameters, tableName);
    var results := RunQuery(execute, query);
    if results.Err? {
      return Err(results.error);
    }
    var rows := RowsOf(results.value);
    if rows.Err? {
      return Err(rows.error);
    }
    return Ok(|rows.value| > 0);
  }

  /** `get_database_data_from_objects(object_parameters, table_name)`: the
      rows of the query built from the parameters. */
  method GetDatabaseDataFromObjects(execute: Executor, parameters: seq<(string, Value)>, tableName: string)
    returns (r: Result<seq<Row>, DbError>)
    ensures var q := SelectQuery(parameters, tableName);
      && (RunQuery(execute, q).Err? ==> r == Err(RunQuery(execute, q).error))
      && (execute(q).Ok? && execute(q).value.Rows? ==> r == Ok(execute(q).value.rows))
  {
    var query := BuildSelectQuery(parameters, tableName);
    var results := RunQuery(execute, query);
    if results.Err? {
      return Err(results.error);
    }
    var rows := RowsOf(results.value);
    if rows.Err? {
      return Err(rows.error);
    }
    return Ok(if |rows.value| > 0 then rows.value else []);
  }

  /** The fields of a user record read back from the `user` table. */
  datatype User = User(id: Value, userName: Value, password: Value, email: Value, entryData: Value)

  /** `get_user_object(user_id)`: `None` when no row has that id, otherwise
      the first row's first five columns. */
  method GetUserObject(execute: Executor, userId: string) returns (r: Result<Option<User>, DbError>)
    ensures var q := "SELECT * FROM user WHERE id='" + userId + "' ";
      && (execute(q).Err? ==> r == Err(execute(q).error))
      && (execute(q) == Ok(Rows([])) ==> r == Ok(None))
      && (execute(q).Ok? && execute(q).value.Rows? && |execute(q).value.rows| > 0 ==>
          var row := execute(q).value.rows[0];
          r == if |row| >= 5 then Ok(Some(User(row[0], row[1], row[2], row[3], row[4]))) else Err(IndexError))
  {
    UserQuery(userId);
    var data := GetDatabaseDataFromObjects(execute, [("id", VString(userId))], UserTable);
    if data.Err? {
      return Err(data.error);
    }
    var userData := data.value;
    if |userData| == 0 {
      return Ok(None);
    }
    if |userData[0]| < 5 {
      return Err(IndexError);
    }
    var row := userData[0];
    return Ok(Some(User(row[0], row[1], row[2], row[3], row[4])));
  }

  /** The query that looks a user up by id. */
  lemma UserQuery(userId: string)
    ensures SelectQuery([("id", VString(userId))], UserTable) == "SELECT * FROM user WHERE id='" + userId + "' "
    ensures IsSelect("SELECT * FROM user WHERE id='" + userId + "' ")
  {
    var q := "SELECT * FROM user WHERE id='" + userId + "' ";
    assert q[..6] == "SELECT";
  }
}
