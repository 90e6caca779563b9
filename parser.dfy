/** internal/mysql/parser.go: the statements applied one after the other to
    a storage, with a current database. */
module Parser {
  import opened Errors
  import opened Externals
  import opened Statements
  import Charsets
  import Storages

  /** The storage built so far and the name of the current database. */
  datatype State = State(dbs: Storages.Storage, cur: string)

  /** No database, and the default database name as the current one. */
  function Init(env: Env): State
  {
    State([], env.defaultDatabaseName)
  }

  /** Before a table statement: when the current database is still the
      default one, it is added (with the default charset) if missing. */
  function Select(st: State, env: Env): State
  {
    if st.cur == env.defaultDatabaseName then
      var (dbs, cur) := Storages.AddDatabase(st.dbs, st.cur, Charsets.DEFAULT_CHARSET);
      State(dbs, cur)
    else st
  }

  /** One statement: CREATE DATABASE adds the database and makes it current,
      DROP DATABASE removes it, a table statement works on the current
      database, and anything else is ignored. */
  function Step(st: State, stmt: Statement, env: Env): (r: Result<State>)
    ensures r.Err? ==> stmt.CreateTable? || stmt.AlterTable? || stmt.DropTable? || stmt.RenameTable?
    ensures stmt.OtherStatement? ==> r == Ok(st)
  {
    match stmt
    case CreateDatabase(name, charset) =>
      var (dbs, cur) := Storages.AddDatabase(st.dbs, name, charset);
      Ok(State(dbs, cur))
    case DropDatabase(name) => Ok(st.(dbs := Storages.DropDatabase(st.dbs, name)))
    case OtherStatement => Ok(st)
    case CreateTable(name, spec) =>
      var sel := Select(st, env);
      (match Storages.CreatedTable(sel.dbs, sel.cur, name, spec, env)
       case Err(e) => Err(e)
       case Ok(dbs) => Ok(sel.(dbs := dbs)))
    case OtherTableAction => Ok(Select(st, env))
    case _ =>
      var sel := Select(st, env);
      (match Storages.CheckDatabase(sel.dbs, sel.cur)
       case Some(e) => Err(e)
       case None => Ok(sel))
  }

  /** The statements in order, stopping at the first error. */
  function Run(st: State, stmts: seq<Statement>, env: Env): Result<State>
    decreases |stmts|
  {
    if |stmts| == 0 then Ok(st)
    else
      match Step(st, stmts[0], env)
      case Err(e) => Err(e)
      case Ok(next) => Run(next, stmts[1..], env)
  }

  /** Parse: the storage the statements build, or the first error. */
  function ParseOf(stmts: seq<Statement>, env: Env): Result<Storages.Storage>
  {
    match Run(Init(env), stmts, env)
    case Err(e) => Err(e)
    case Ok(st) => Ok(st.dbs)
  }

  method Parse(stmts: seq<Statement>, env: Env) returns (r: Result<Storages.Storage>)
    ensures r == ParseOf(stmts, env)
  {
    var dbs: Storages.Storage := [];
    var cur := env.defaultDatabaseName;
    for i := 0 to |stmts|
      invariant Run(Init(env), stmts, env) == Run(State(dbs, cur), stmts[i..], env)
    {
      assert stmts[i..][1..] == stmts[i + 1..];
      var stmt := stmts[i];
      if stmt.CreateDatabase? {
        var added := Storages.AddDatabase(dbs, stmt.dbName, stmt.charset);
        dbs, cur := added.0, added.1;
      } else if stmt.DropDatabase? {
        dbs := Storages.DropDatabase(dbs, stmt.dbName);
      } else if stmt.IsTableStatement() {
        if cur == env.defaultDatabaseName {
          var added := Storages.AddDatabase(dbs, cur, Charsets.DEFAULT_CHARSET);
          dbs, cur := added.0, added.1;
        }
        if stmt.CreateTable? {
          var created := Storages.CreateTable(dbs, cur, stmt.tableName, stmt.spec, env);
          if created.Err? {
            return Err(created.error);
          }
          dbs := created.value;
        } else if !stmt.OtherTableAction? {
          var err := Storages.CheckDatabase(dbs, cur);
          if err.Some? {
            return Err(err.value);
          }
        }
      }
    }
    assert stmts[|stmts|..] == [];
    return Ok(dbs);
  }

  /** Run over two runs of statements is the second run from where the
      first one ends. */
  lemma {:induction false} RunAppend(st: State, a: seq<Statement>, b: seq<Statement>, env: Env)
    ensures Run(st, a + b, env) == (match Run(st, a, env) case Err(e) => Err(e) case Ok(mid) => Run(mid, b, env))
    decreases |a|
  {
    if |a| == 0 {
      assert a + b == b;
    } else {
      assert (a + b)[0] == a[0] && (a + b)[1..] == a[1..] + b;
      if Step(st, a[0], env).Ok? {
        RunAppend(Step(st, a[0], env).value, a[1..], b, env);
      }
    }
  }

  /** Every step keeps database names distinct. */
  lemma StepKeepsNamesDistinct(st: State, stmt: Statement, env: Env)
    requires Storages.DistinctNames(st.dbs)
    ensures Step(st, stmt, env).Ok? ==> Storages.DistinctNames(Step(st, stmt, env).value.dbs)
  {
    Storages.AddDatabaseShape(st.dbs, st.cur, Charsets.DEFAULT_CHARSET);
    var sel := Select(st, env);
    match stmt
    case CreateDatabase(name, charset) => Storages.AddDatabaseShape(st.dbs, name, charset);
    case DropDatabase(name) => Storages.DropDatabaseShape(st.dbs, name);
    case CreateTable(name, spec) => Storages.CreatedTableShape(sel.dbs, sel.cur, name, spec, env);
    case _ =>
  }

  /** The storage that Parse returns never holds two databases of one name. */
  lemma {:induction false} RunKeepsNamesDistinct(st: State, stmts: seq<Statement>, env: Env)
    requires Storages.DistinctNames(st.dbs)
    ensures Run(st, stmts, env).Ok? ==> Storages.DistinctNames(Run(st, stmts, env).value.dbs)
    decreases |stmts|
  {
    if |stmts| > 0 {
      StepKeepsNamesDistinct(st, stmts[0], env);
      if Step(st, stmts[0], env).Ok? {
        RunKeepsNamesDistinct(Step(st, stmts[0], env).value, stmts[1..], env);
      }
    }
  }

  lemma ParsedNamesDistinct(stmts: seq<Statement>, env: Env)
    ensures ParseOf(stmts, env).Ok? ==> Storages.DistinctNames(ParseOf(stmts, env).value)
  {
    RunKeepsNamesDistinct(Init(env), stmts, env);
  }

  /** CREATE DATABASE always succeeds and makes that database current and
      present; DROP DATABASE always succeeds and keeps the current name,
      even when it removes the current database. */
  lemma DatabaseStatements(st: State, name: string, charset: string, env: Env)
    ensures Step(st, CreateDatabase(name, charset), env).Ok?
    ensures Step(st, CreateDatabase(name, charset), env).value.cur == name
    ensures Storages.Get(Step(st, CreateDatabase(name, charset), env).value.dbs, name).Ok?
    ensures Step(st, DropDatabase(name), env).Ok?
    ensures Step(st, DropDatabase(name), env).value.cur == st.cur
  {
    Storages.AddDatabaseShape(st.dbs, name, charset);
  }

  /** ALTER, DROP and RENAME TABLE change nothing but the default database
      they may add, and fail exactly when the current database is not the
      default one and is missing. */
  lemma CheckedTableStatements(st: State, stmt: Statement, env: Env)
    requires stmt.AlterTable? || stmt.DropTable? || stmt.RenameTable?
    ensures Step(st, stmt, env).Err? <==>
      st.cur != env.defaultDatabaseName && Storages.Get(st.dbs, st.cur).Err?
    ensures Step(st, stmt, env).Ok? ==> Step(st, stmt, env).value == Select(st, env)
  {
    Storages.AddDatabaseShape(st.dbs, st.cur, Charsets.DEFAULT_CHARSET);
  }

  /** A table statement made while the default database is current adds it
      once and keeps it current. */
  lemma DefaultDatabaseSelected(st: State, env: Env)
    requires st.cur == env.defaultDatabaseName
    ensures Select(st, env).cur == env.defaultDatabaseName
    ensures Storages.Get(Select(st, env).dbs, env.defaultDatabaseName).Ok?
    ensures Storages.Get(st.dbs, st.cur).Ok? ==> Select(st, env) == st
  {
    Storages.AddDatabaseShape(st.dbs, st.cur, Charsets.DEFAULT_CHARSET);
  }

  /** A created table goes to the end of the current database; the other
      databases stay as they were. */
  lemma CreateTableStatement(st: State, name: string, spec: Option<TableSpec>, env: Env)
    ensures Step(st, CreateTable(name, spec), env).Ok? ==>
      var sel := Select(st, env);
      var next := Step(st, CreateTable(name, spec), env).value;
      var i := Storages.Get(sel.dbs, sel.cur).value;
      next.cur == sel.cur && |next.dbs| == |sel.dbs| &&
      Storages.Get(sel.dbs, sel.cur).Ok? &&
      (forall j :: 0 <= j < |sel.dbs| && j != i ==> next.dbs[j] == sel.dbs[j]) &&
      |next.dbs[i].tables| == |sel.dbs[i].tables| + 1 &&
      next.dbs[i].tables[|sel.dbs[i].tables|].name == name
  {
    var sel := Select(st, env);
    Storages.CreatedTableShape(sel.dbs, sel.cur, name, spec, env);
  }

  /** With no statements the storage is empty; ignored statements change nothing. */
  lemma {:induction false} IgnoredStatements(st: State, stmts: seq<Statement>, env: Env)
    requires forall k :: 0 <= k < |stmts| ==> stmts[k].OtherStatement?
    ensures ParseOf([], env) == Ok([])
    ensures Run(st, stmts, env) == Ok(st)
    decreases |stmts|
  {
    if |stmts| > 0 {
      IgnoredStatements(st, stmts[1..], env);
    }
  }
}
