/** internal/mysql/storage.go: the databases built from the statements, and
    the operations the statements perform on them. */
module Storages {
  import opened Uint64
  import opened Errors
  import opened Strings
  import opened Externals
  import opened Statements
  import Charsets
  import Columns
  import Engines
  import RowFormats
  import Tables
  import opened Databases

  type Storage = seq<Database>

  /** Database names are pairwise distinct. */
  predicate DistinctNames(s: Storage)
  {
    forall i, j :: 0 <= i < j < |s| ==> s[i].name != s[j].name
  }

  /** get: the position of the first database called `name`, or an
      invalid-data error when there is none. */
  function Get(s: Storage, name: string): (r: Result<nat>)
    ensures r.Ok? ==> r.value < |s| && s[r.value].name == name
    ensures r.Ok? ==> forall j :: 0 <= j < r.value ==> s[j].name != name
    ensures r.Err? <==> forall j :: 0 <= j < |s| ==> s[j].name != name
    ensures r.Err? ==> r.error == ErrInvalid
  {
    if |s| == 0 then Err(ErrInvalid)
    else if s[0].name == name then Ok(0)
    else
      match Get(s[1..], name)
      case Ok(i) => Ok(i + 1)
      case Err(e) => Err(e)
  }

  /** addDatabase: the storage with a database of that name, appended empty
      when there was none; the name is returned either way. */
  function AddDatabase(s: Storage, name: string, charset: string): (Storage, string)
  {
    if Get(s, name).Err? then (s + [Database(name, charset, [])], name) else (s, name)
  }

  lemma AddDatabaseShape(s: Storage, name: string, charset: string)
    ensures AddDatabase(s, name, charset).1 == name
    ensures Get(s, name).Ok? ==> AddDatabase(s, name, charset).0 == s
    ensures Get(s, name).Err? ==> AddDatabase(s, name, charset).0 == s + [Database(name, charset, [])]
    ensures Get(AddDatabase(s, name, charset).0, name).Ok?
    ensures DistinctNames(s) ==> DistinctNames(AddDatabase(s, name, charset).0)
  {
    var r := AddDatabase(s, name, charset).0;
    if Get(s, name).Err? {
      assert r[|s|].name == name;
    }
  }

  /** dropDatabase: the storage without the first database of that name,
      the others kept in order; unchanged when there is none. */
  function DropDatabase(s: Storage, name: string): Storage
  {
    match Get(s, name)
    case Err(_) => s
    case Ok(i) => s[..i] + s[i + 1..]
  }

  /** The databases left once the one at `i` is removed, position by position. */
  lemma RemovedAt(s: Storage, i: nat, r: Storage)
    requires i < |s| && r == s[..i] + s[i + 1..]
    ensures |r| == |s| - 1
    ensures forall k :: 0 <= k < i ==> r[k] == s[k]
    ensures forall k :: i <= k < |r| ==> r[k] == s[k + 1]
  {
  }

  lemma DropDatabaseShape(s: Storage, name: string)
    ensures Get(s, name).Err? ==> DropDatabase(s, name) == s
    ensures Get(s, name).Ok? ==> |DropDatabase(s, name)| == |s| - 1
    ensures DistinctNames(s) ==> DistinctNames(DropDatabase(s, name))
    ensures DistinctNames(s) ==> Get(DropDatabase(s, name), name).Err?
  {
    if Get(s, name).Ok? {
      var i := Get(s, name).value;
      var r := DropDatabase(s, name);
      RemovedAt(s, i, r);
      if DistinctNames(s) {
        forall a, b | 0 <= a < b < |r| ensures r[a].name != r[b].name {
          var a' := if a < i then a else a + 1;
          var b' := if b < i then b else b + 1;
          assert r[a] == s[a'] && r[b] == s[b'] && a' < b';
        }
        forall k | 0 <= k < |r| ensures r[k].name != name {
          var k' := if k < i then k else k + 1;
          assert r[k] == s[k'] && k' != i;
        }
      }
    }
  }

  // ---------------------------------------------------------------------
  // Table options

  const ENGINE: string := "engine"
  const ROW_FORMAT: string := "row_format"

  /** One "key=value" piece of the options text: recorded under its lower-cased
      key, replacing an earlier value; a piece without "=" is skipped. */
  function AddOption(m: map<string, string>, piece: string): map<string, string>
  {
    var kv := SplitN2(piece, '=');
    if |kv| == 2 then m[Lower(kv[0]) := kv[1]] else m
  }

  /** The options of the pieces, the later ones overriding the earlier. */
  function FoldOptions(pieces: seq<string>): map<string, string>
  {
    if |pieces| == 0 then map[]
    else AddOption(FoldOptions(pieces[..|pieces| - 1]), pieces[|pieces| - 1])
  }

  /** The options text of a table definition; none without a definition. */
  function OptionsText(spec: Option<TableSpec>): string
  {
    if spec.Some? then spec.value.options else ""
  }

  /** options: the key/value pairs of the options text split on spaces. */
  function OptionsOf(spec: Option<TableSpec>): map<string, string>
  {
    var text := OptionsText(spec);
    if text == "" then map[] else FoldOptions(Split(text, ' '))
  }

  method Options(spec: Option<TableSpec>) returns (res: map<string, string>)
    ensures res == OptionsOf(spec)
  {
    if spec.None? || spec.value.options == "" {
      return map[];
    }
    var pieces := Split(spec.value.options, ' ');
    res := map[];
    for p := 0 to |pieces|
      invariant res == FoldOptions(pieces[..p])
    {
      assert pieces[..p + 1][..p] == pieces[..p];
      var kv := SplitN2(pieces[p], '=');
      if |kv| == 2 {
        res := res[Lower(kv[0]) := kv[1]];
      }
    }
    assert pieces[..|pieces|] == pieces;
  }

  /** A Go map lookup: the value, or "" for a missing key. */
  function Lookup(m: map<string, string>, key: string): string
  {
    if key in m then m[key] else ""
  }

  /** The key a piece records, when it has an "=". */
  function PieceKey(piece: string): string
    requires '=' in piece
  {
    Lower(SplitN2(piece, '=')[0])
  }

  /** Whether piece `j` records a value under `key`. */
  predicate Names(pieces: seq<string>, j: int, key: string)
  {
    0 <= j < |pieces| && '=' in pieces[j] && PieceKey(pieces[j]) == key
  }

  /** The options hold exactly the keys of the pieces with an "=", lower-cased. */
  lemma {:induction false} FoldOptionsKeys(pieces: seq<string>, key: string)
    ensures key in FoldOptions(pieces) <==> exists j :: Names(pieces, j, key)
  {
    if |pieces| > 0 {
      var init := pieces[..|pieces| - 1];
      FoldOptionsKeys(init, key);
      if Names(pieces, |pieces| - 1, key) {
        assert key in FoldOptions(pieces);
      } else {
        assert forall j :: Names(init, j, key) <==> Names(pieces, j, key) && j < |init|;
        if key in FoldOptions(pieces) {
          var j :| Names(init, j, key);
          assert Names(pieces, j, key);
        }
      }
    }
  }

  /** A key holds the value of the last piece that names it. */
  lemma {:induction false} FoldOptionsLastWins(pieces: seq<string>, key: string, j: int)
    requires Names(pieces, j, key)
    requires forall l :: j < l < |pieces| ==> !Names(pieces, l, key)
    ensures key in FoldOptions(pieces) && FoldOptions(pieces)[key] == SplitN2(pieces[j], '=')[1]
  {
    var init := pieces[..|pieces| - 1];
    if j < |pieces| - 1 {
      assert Names(init, j, key);
      assert forall l :: j < l < |init| ==> !Names(init, l, key) by {
        forall l | j < l < |init| ensures !Names(init, l, key) {
          assert !Names(pieces, l, key);
        }
      }
      FoldOptionsLastWins(init, key, j);
      assert !Names(pieces, |pieces| - 1, key);
    }
  }

  /** Every recorded key is lower case. */
  lemma {:induction false} OptionKeysLowerCase(pieces: seq<string>)
    ensures forall k :: k in FoldOptions(pieces) ==> Lower(k) == k
  {
    if |pieces| > 0 {
      OptionKeysLowerCase(pieces[..|pieces| - 1]);
      var last := pieces[|pieces| - 1];
      if '=' in last {
        LowerIdempotent(SplitN2(last, '=')[0]);
      }
    }
  }

  /** Without an options text the engine is InnoDB and the row format unknown. */
  lemma NoOptions(spec: Option<TableSpec>)
    requires spec.None? || spec.value.options == ""
    ensures Engines.ToEngine(Lookup(OptionsOf(spec), ENGINE)) == Engines.INNODB
    ensures RowFormats.ToRowFormat(Lookup(OptionsOf(spec), ROW_FORMAT)) == RowFormats.UNKNOWN
  {
  }

  // ---------------------------------------------------------------------
  // Columns

  /** One column from its definition: the charset chosen between the
      column's and the database's, and length 0 when none is given. */
  function ColumnOf(def: ColumnDef, dbCharset: string, env: Env): Columns.Column
  {
    Columns.Column(def.name, env.charset(def.charset, dbCharset), def.length.GetOr(0), env.toDataType(def.typeName), def.notNull)
  }

  /** columns: one column per definition, in order. */
  function ColumnsOf(spec: Option<TableSpec>, dbCharset: string, env: Env): (r: seq<Columns.Column>)
    ensures spec.Some? ==> |r| == |spec.value.columns|
    ensures spec.Some? ==> forall k :: 0 <= k < |r| ==>
      r[k].name == spec.value.columns[k].name && r[k].notNull == spec.value.columns[k].notNull
    ensures spec.None? ==> r == []
  {
    if spec.None? then []
    else seq(|spec.value.columns|, k requires 0 <= k < |spec.value.columns| => ColumnOf(spec.value.columns[k], dbCharset, env))
  }

  method ColumnsFrom(spec: Option<TableSpec>, dbCharset: string, env: Env) returns (res: seq<Columns.Column>)
    ensures res == ColumnsOf(spec, dbCharset, env)
  {
    if spec.None? || |spec.value.columns| == 0 {
      return [];
    }
    var defs := spec.value.columns;
    res := [];
    for k := 0 to |defs|
      invariant |res| == k
      invariant forall j :: 0 <= j < k ==> res[j] == ColumnOf(defs[j], dbCharset, env)
    {
      var v := defs[k];
      var c := Columns.Column(v.name, env.charset(v.charset, dbCharset), 0, env.toDataType(v.typeName), v.notNull);
      if v.length.Some? {
        c := c.(dataSize := v.length.value);
      }
      res := res + [c];
    }
  }

  // ---------------------------------------------------------------------
  // Tables

  /** The key definitions of a table definition; none without one. */
  function KeyDefs(spec: Option<TableSpec>): seq<IndexDef>
  {
    if spec.Some? then spec.value.indexes else []
  }

  /** The table createTable starts from in database `db`. */
  function NewTable(db: Database, tableName: string, spec: Option<TableSpec>, env: Env): Tables.Table
  {
    var opts := OptionsOf(spec);
    Tables.Table(
      tableName,
      Engines.ToEngine(Lookup(opts, ENGINE)),
      ColumnsOf(spec, db.charset, env),
      [],
      RowFormats.ToRowFormat(Lookup(opts, ROW_FORMAT)))
  }

  /** createTable on a storage value: the table, with its keys added and
      analysed, appended to database `dbName`; or the first error (unknown
      database, a key that fails, an invalid table) and no change. */
  function CreatedTable(s: Storage, dbName: string, tableName: string, spec: Option<TableSpec>, env: Env): Result<Storage>
  {
    match Get(s, dbName)
    case Err(e) => Err(e)
    case Ok(i) =>
      var (kerr, t) := Tables.WithKeys(NewTable(s[i], tableName, spec, env), KeyDefs(spec));
      if kerr.Some? then Err(kerr.value)
      else if Tables.AnalyzeError(t).Some? then Err(Tables.AnalyzeError(t).value)
      else Ok(s[i := s[i].(tables := s[i].tables + [Tables.Analyzed(t, env)])])
  }

  /** createTable: builds the table in place, then stores it. */
  method CreateTable(s: Storage, dbName: string, tableName: string, spec: Option<TableSpec>, env: Env)
    returns (r: Result<Storage>)
    ensures r == CreatedTable(s, dbName, tableName, spec, env)
  {
    var found := Get(s, dbName);
    if found.Err? {
      return Err(found.error);
    }
    var i := found.value;
    var opts := Options(spec);
    var cols := ColumnsFrom(spec, s[i].charset, env);
    var t := new Tables.TableDraft(tableName, Engines.ToEngine(Lookup(opts, ENGINE)), cols,
      RowFormats.ToRowFormat(Lookup(opts, ROW_FORMAT)));
    var err := t.AddKeys(KeyDefs(spec));
    if err.Some? {
      return Err(err.value);
    }
    err := t.Analyze(env);
    if err.Some? {
      return Err(err.value);
    }
    var table := t.Value();
    return Ok(s[i := s[i].(tables := s[i].tables + [table])]);
  }

  /** createTable fails on an unknown database; when it succeeds it adds
      exactly one table, named as asked, at the end of that database, and
      leaves every other database and every name as it was. */
  lemma CreatedTableShape(s: Storage, dbName: string, tableName: string, spec: Option<TableSpec>, env: Env)
    ensures Get(s, dbName).Err? ==> CreatedTable(s, dbName, tableName, spec, env) == Err(ErrInvalid)
    ensures tableName == "" ==> CreatedTable(s, dbName, tableName, spec, env).Err?
    ensures CreatedTable(s, dbName, tableName, spec, env).Ok? ==>
      var r := CreatedTable(s, dbName, tableName, spec, env).value;
      var i := Get(s, dbName).value;
      |r| == |s| &&
      (forall j :: 0 <= j < |s| && j != i ==> r[j] == s[j]) &&
      r[i].name == s[i].name && r[i].charset == s[i].charset &&
      |r[i].tables| == |s[i].tables| + 1 && r[i].tables[..|s[i].tables|] == s[i].tables &&
      r[i].tables[|s[i].tables|].name == tableName
    ensures CreatedTable(s, dbName, tableName, spec, env).Ok? && DistinctNames(s) ==>
      DistinctNames(CreatedTable(s, dbName, tableName, spec, env).value)
  {
    if Get(s, dbName).Ok? {
      var i := Get(s, dbName).value;
      var t0 := NewTable(s[i], tableName, spec, env);
      Tables.WithKeysShape(t0, KeyDefs(spec));
      var t := Tables.WithKeys(t0, KeyDefs(spec)).1;
      Tables.AnalyzeIdempotent(t, env);
      if CreatedTable(s, dbName, tableName, spec, env).Ok? {
        var r := CreatedTable(s, dbName, tableName, spec, env).value;
        assert r[i].tables == s[i].tables + [Tables.Analyzed(t, env)];
      }
    }
  }

  /** alterTable, dropTable and renameTable: only check that the database
      exists; the storage is never changed. */
  function CheckDatabase(s: Storage, dbName: string): (r: Option<Errors.Error>)
    ensures r.None? <==> exists j :: 0 <= j < |s| && s[j].name == dbName
    ensures r.Some? ==> r.value == ErrInvalid
  {
    match Get(s, dbName)
    case Err(e) => Some(e)
    case Ok(_) => None
  }
}
