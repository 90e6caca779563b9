/** internal/mysql/table.go: a table, how it is checked, how its keys are
    built from key definitions, and its size. */
module Tables {
  import opened Uint64
  import opened Errors
  import opened Strings
  import opened RowFormats
  import opened Externals
  import opened Columns
  import opened Indexes
  import opened Engines
  import opened Statements
  import DataItems

  datatype Table = Table(
    name: string,
    engine: Engine,
    columns: seq<Column>,
    indexes: seq<Index>,
    rowFormat: RowFormat)

  /** The position returned when nothing matches. */
  const NOT_FOUND: int := -1

  /** Table.Kind: "table(" + the engine and row format, those that are not
      empty, separated by ", " + ")". */
  function Kind(t: Table): string
  {
    var parts := (if t.engine != "" then [t.engine] else []) + (if t.rowFormat != "" then [t.rowFormat] else []);
    "table(" + Join(parts, ", ") + ")"
  }

  lemma KindShapes(t: Table)
    ensures t.engine != "" && t.rowFormat != "" ==> Kind(t) == "table(" + t.engine + ", " + t.rowFormat + ")"
    ensures t.engine != "" && t.rowFormat == "" ==> Kind(t) == "table(" + t.engine + ")"
    ensures t.engine == "" && t.rowFormat != "" ==> Kind(t) == "table(" + t.rowFormat + ")"
    ensures t.engine == "" && t.rowFormat == "" ==> Kind(t) == "table()"
  {
    if t.engine != "" && t.rowFormat != "" {
      var parts := [t.engine] + [t.rowFormat];
      assert parts == [t.engine, t.rowFormat];
      assert parts[1..] == [t.rowFormat];
      assert Join(parts, ", ") == t.engine + ", " + t.rowFormat;
    }
  }

  // ---------------------------------------------------------------------
  // Searches

  /** primaryKeyIndex: the position of the first primary key, or -1. */
  function PrimaryKeyIndex(indexes: seq<Index>): (r: int)
    ensures -1 <= r < |indexes|
    ensures r == NOT_FOUND <==> forall j :: 0 <= j < |indexes| ==> !indexes[j].primary
    ensures r >= 0 ==> indexes[r].primary && forall j :: 0 <= j < r ==> !indexes[j].primary
  {
    if |indexes| == 0 then NOT_FOUND
    else if indexes[0].primary then 0
    else
      var r := PrimaryKeyIndex(indexes[1..]);
      if r == NOT_FOUND then NOT_FOUND else r + 1
  }

  /** columnIndex: the position of the first column called `name`, or -1. */
  function ColumnIndex(cols: seq<Column>, name: string): (r: int)
    ensures -1 <= r < |cols|
    ensures r == NOT_FOUND <==> forall j :: 0 <= j < |cols| ==> cols[j].name != name
    ensures r >= 0 ==> cols[r].name == name && forall j :: 0 <= j < r ==> cols[j].name != name
  {
    if |cols| == 0 then NOT_FOUND
    else if cols[0].name == name then 0
    else
      var r := ColumnIndex(cols[1..], name);
      if r == NOT_FOUND then NOT_FOUND else r + 1
  }

  /** The columns the names resolve to, in request order, skipping names
      that match no column (the loop of columnsNamed). */
  function Resolved(cols: seq<Column>, names: seq<string>): seq<Column>
  {
    if |names| == 0 then []
    else
      var i := ColumnIndex(cols, names[|names| - 1]);
      Resolved(cols, names[..|names| - 1]) + (if i != NOT_FOUND then [cols[i]] else [])
  }

  /** columnsNamed: the named columns, or nothing at all when no name is
      given or some name matches no column. */
  function NamedColumns(cols: seq<Column>, names: seq<string>): seq<Column>
  {
    if |names| == 0 then []
    else
      var res := Resolved(cols, names);
      if |res| != |names| then [] else res
  }

  /** Every name matches some column. */
  predicate AllResolve(cols: seq<Column>, names: seq<string>)
  {
    forall k :: 0 <= k < |names| ==> ColumnIndex(cols, names[k]) != NOT_FOUND
  }

  lemma {:induction false} ResolvedShape(cols: seq<Column>, names: seq<string>)
    ensures |Resolved(cols, names)| <= |names|
    ensures |Resolved(cols, names)| == |names| <==> AllResolve(cols, names)
    ensures AllResolve(cols, names) ==>
      forall k :: 0 <= k < |names| ==> Resolved(cols, names)[k] == cols[ColumnIndex(cols, names[k])]
  {
    if |names| > 0 {
      var init := names[..|names| - 1];
      ResolvedShape(cols, init);
      var last := names[|names| - 1];
      if ColumnIndex(cols, last) == NOT_FOUND {
        assert !AllResolve(cols, names);
      } else {
        assert AllResolve(cols, names) <==> AllResolve(cols, init) by {
          assert forall k :: 0 <= k < |init| ==> init[k] == names[k];
        }
      }
    }
  }

  /** The named columns are found exactly when some name is given and every
      name matches a column; they are then the first columns of those names,
      in request order, repeated names included. */
  lemma NamedColumnsShape(cols: seq<Column>, names: seq<string>)
    ensures |NamedColumns(cols, names)| > 0 <==> |names| > 0 && AllResolve(cols, names)
    ensures |NamedColumns(cols, names)| > 0 ==>
      |NamedColumns(cols, names)| == |names| &&
      forall k :: 0 <= k < |names| ==> NamedColumns(cols, names)[k] == cols[ColumnIndex(cols, names[k])]
  {
    ResolvedShape(cols, names);
  }

  /** columnsNamed: the loop that looks each name up. */
  method ColumnsNamed(cols: seq<Column>, names: seq<string>) returns (res: seq<Column>)
    ensures res == NamedColumns(cols, names)
  {
    if |names| == 0 {
      return [];
    }
    res := [];
    for k := 0 to |names|
      invariant res == Resolved(cols, names[..k])
    {
      assert names[..k + 1][..k] == names[..k];
      var i := ColumnIndex(cols, names[k]);
      if i != NOT_FOUND {
        res := res + [cols[i]];
      }
    }
    assert names[..|names|] == names;
    if |res| != |names| {
      return [];
    }
  }

  // ---------------------------------------------------------------------
  // Keys and size

  /** Table.Keys: the keys as the engine sizes them. */
  function KeysOf(t: Table, env: Env): seq<DataItems.Data>
  {
    Engines.KeysOf(t.engine, t.indexes, PrimaryKeyIndex(t.indexes), env)
  }

  method Keys(t: Table, env: Env) returns (res: seq<DataItems.Data>)
    ensures res == KeysOf(t, env)
  {
    res := Engines.Keys(t.engine, t.indexes, PrimaryKeyIndex(t.indexes), env);
  }

  /** Table.Fields: the columns as report items. */
  function FieldsOf(t: Table, env: Env): seq<DataItems.Data>
  {
    Engines.FieldsOf(t.columns, env)
  }

  /** Table.Size: the row size, then every key's size, accumulated in order. */
  function SizeOf(t: Table, env: Env): Range
  {
    Sum([RowSizeOf(t.engine, t.columns, t.rowFormat, env)] + DataItems.Sizes(KeysOf(t, env)))
  }

  method Size(t: Table, env: Env) returns (r: Range)
    ensures r == SizeOf(t, env)
  {
    r := RowSize(t.engine, t.columns, t.rowFormat, env);
    var keys := Keys(t, env);
    ghost var r0 := r;
    assert [r0] + DataItems.Sizes(keys[..0]) == [r0];
    for p := 0 to |keys|
      invariant r == Sum([r0] + DataItems.Sizes(keys[..p]))
    {
      SizeStep(r0, keys, p);
      r := Range(Add(r.min, keys[p].size.min), Add(r.max, keys[p].size.max));
    }
    assert keys[..|keys|] == keys;
  }

  lemma SizeStep(r0: Range, keys: seq<DataItems.Data>, p: nat)
    requires p < |keys|
    ensures Sum([r0] + DataItems.Sizes(keys[..p + 1])) == Plus(Sum([r0] + DataItems.Sizes(keys[..p])), keys[p].size)
  {
    assert keys[..p + 1] == keys[..p] + [keys[p]];
    assert DataItems.Sizes(keys[..p + 1]) == DataItems.Sizes(keys[..p]) + [keys[p].size];
    assert [r0] + DataItems.Sizes(keys[..p + 1]) == ([r0] + DataItems.Sizes(keys[..p])) + [keys[p].size];
    SumAppend([r0] + DataItems.Sizes(keys[..p]), keys[p].size);
  }

  /** A table takes its row size plus the total size of its keys. */
  lemma SizeIsRowPlusKeys(t: Table, env: Env)
    ensures SizeOf(t, env) == Plus(RowSizeOf(t.engine, t.columns, t.rowFormat, env), DataItems.Total(KeysOf(t, env)))
  {
    SumCons(RowSizeOf(t.engine, t.columns, t.rowFormat, env), DataItems.Sizes(KeysOf(t, env)));
  }

  /** The table as a report item. */
  function Item(t: Table, env: Env): DataItems.Data
  {
    DataItems.Data(t.name, Kind(t), SizeOf(t, env))
  }

  // ---------------------------------------------------------------------
  // Checking a table

  /** The outcome of Analyze: a missing name, then a missing engine, then
      missing columns, in that order. */
  function AnalyzeError(t: Table): Option<Error>
  {
    if t.name == "" then Some(ErrMissing)
    else if t.engine == "" then Some(ErrInvalid)
    else if |t.columns| == 0 then Some(ErrMissing)
    else None
  }

  /** The table after Analyze: the row format the engine settles on when the
      table is valid, the table unchanged otherwise. */
  function Analyzed(t: Table, env: Env): Table
  {
    if AnalyzeError(t).None? then t.(rowFormat := RowFormatOf(t.engine, t.columns, t.rowFormat, env)) else t
  }

  /** Analyze accepts exactly the tables with a name, an engine and columns. */
  lemma AnalyzeValid(t: Table)
    ensures AnalyzeError(t).None? <==> t.name != "" && t.engine != "" && |t.columns| > 0
    ensures AnalyzeError(t) == Some(ErrInvalid) <==> t.name != "" && t.engine == ""
  {
  }

  /** Analyze changes at most the row format, and analysing twice is
      analysing once. */
  lemma AnalyzeIdempotent(t: Table, env: Env)
    ensures Analyzed(t, env).(rowFormat := t.rowFormat) == t
    ensures AnalyzeError(Analyzed(t, env)) == AnalyzeError(t)
    ensures Analyzed(Analyzed(t, env), env) == Analyzed(t, env)
  {
    RowFormatIdempotent(t.engine, t.columns, t.rowFormat, env);
  }

  /** A valid InnoDB table always ends up with a known row format, a valid
      MyISAM one with compressed, dynamic or static. */
  lemma AnalyzedFormat(t: Table, env: Env)
    requires AnalyzeError(t).None?
    ensures t.engine == INNODB ==> Analyzed(t, env).rowFormat != UNKNOWN
    ensures t.engine == MYISAM ==> Analyzed(t, env).rowFormat in {COMPRESSED, DYNAMIC, STATIC}
  {
    MyISAMFormatCases(t.columns, t.rowFormat, env);
  }

  // ---------------------------------------------------------------------
  // Adding keys

  /** addKey on a table value: the key over the named columns appended at
      the end, or an invalid-data error and no change when the columns are
      not all found. */
  function WithKey(t: Table, name: string, names: seq<string>, primary: bool): (Option<Error>, Table)
  {
    var cols := NamedColumns(t.columns, names);
    if |cols| == 0 then (Some(ErrInvalid), t)
    else (None, t.(indexes := t.indexes + [Index(name, cols, primary)]))
  }

  /** addKey fails, and changes nothing, exactly when no name is given or
      some name is not a column; otherwise the one new key, at the end,
      holds the named columns in the order asked, repeats included. */
  lemma WithKeyShape(t: Table, name: string, names: seq<string>, primary: bool)
    ensures WithKey(t, name, names, primary).0.Some? <==> |names| == 0 || !AllResolve(t.columns, names)
    ensures WithKey(t, name, names, primary).0.Some? ==>
      WithKey(t, name, names, primary) == (Some(ErrInvalid), t)
    ensures WithKey(t, name, names, primary).0.None? ==>
      var t1 := WithKey(t, name, names, primary).1;
      t1.(indexes := t.indexes) == t &&
      |t1.indexes| == |t.indexes| + 1 && t1.indexes[..|t.indexes|] == t.indexes &&
      t1.indexes[|t.indexes|].name == name && t1.indexes[|t.indexes|].primary == primary &&
      |t1.indexes[|t.indexes|].columns| == |names| &&
      forall k :: 0 <= k < |names| ==> t1.indexes[|t.indexes|].columns[k] == t.columns[ColumnIndex(t.columns, names[k])]
  {
    NamedColumnsShape(t.columns, names);
  }

  /** addKeys on a table value: the keys added one by one, stopping at the
      first that fails and keeping those added before it. */
  function WithKeys(t: Table, defs: seq<IndexDef>): (Option<Error>, Table)
    decreases |defs|
  {
    if |defs| == 0 then (None, t)
    else
      var (err, t1) := WithKey(t, defs[0].name, defs[0].columns, defs[0].primary);
      if err.Some? then (err, t1) else WithKeys(t1, defs[1..])
  }

  /** Adding keys changes only the key list, which grows at the end: by one
      key per definition when all succeed, each added key carrying its
      definition's name, primary flag and named columns. When one fails,
      addKeys stops there with ErrInvalid and keeps the keys added before it. */
  lemma WithKeysShape(t: Table, defs: seq<IndexDef>)
    ensures WithKeys(t, defs).1.(indexes := t.indexes) == t
    ensures |WithKeys(t, defs).1.indexes| >= |t.indexes|
    ensures WithKeys(t, defs).1.indexes[..|t.indexes|] == t.indexes
    ensures WithKeys(t, defs).0.None? ==>
      |WithKeys(t, defs).1.indexes| == |t.indexes| + |defs| &&
      forall k :: 0 <= k < |defs| ==>
        WithKeys(t, defs).1.indexes[|t.indexes| + k].name == defs[k].name &&
        WithKeys(t, defs).1.indexes[|t.indexes| + k].primary == defs[k].primary &&
        WithKeys(t, defs).1.indexes[|t.indexes| + k].columns == NamedColumns(t.columns, defs[k].columns)
    ensures WithKeys(t, defs).0.Some? ==>
      exists j :: 0 <= j < |defs| && FailsAt(t, defs, j)
  {
    WithKeysKeep(t, defs);
    WithKeysAdded(t, defs);
    WithKeysStops(t, defs);
  }

  /** The definitions before j all succeed, the one at j fails, and the
      outcome is ErrInvalid with the table as it was before j. */
  predicate FailsAt(t: Table, defs: seq<IndexDef>, j: int)
    requires 0 <= j < |defs|
  {
    var before := WithKeys(t, defs[..j]);
    before.0.None? &&
    WithKey(before.1, defs[j].name, defs[j].columns, defs[j].primary).0.Some? &&
    WithKeys(t, defs) == (Some(ErrInvalid), before.1)
  }

  lemma {:induction false} WithKeysStops(t: Table, defs: seq<IndexDef>)
    ensures WithKeys(t, defs).0.Some? ==> exists j :: 0 <= j < |defs| && FailsAt(t, defs, j)
    decreases |defs|
  {
    if |defs| > 0 {
      var (err, t1) := WithKey(t, defs[0].name, defs[0].columns, defs[0].primary);
      if err.Some? {
        assert defs[..0] == [];
        assert FailsAt(t, defs, 0);
      } else if WithKeys(t, defs).0.Some? {
        WithKeysStops(t1, defs[1..]);
        var j :| 0 <= j < |defs[1..]| && FailsAt(t1, defs[1..], j);
        assert defs[..j + 1][1..] == defs[1..][..j];
        assert defs[..j + 1][0] == defs[0];
        assert WithKeys(t, defs[..j + 1]) == WithKeys(t1, defs[1..][..j]);
        assert defs[j + 1] == defs[1..][j];
        assert FailsAt(t, defs, j + 1);
      }
    }
  }

  lemma {:induction false} WithKeysKeep(t: Table, defs: seq<IndexDef>)
    ensures WithKeys(t, defs).1.(indexes := t.indexes) == t
    ensures |WithKeys(t, defs).1.indexes| >= |t.indexes|
    ensures WithKeys(t, defs).1.indexes[..|t.indexes|] == t.indexes
    decreases |defs|
  {
    if |defs| > 0 {
      var (err, t1) := WithKey(t, defs[0].name, defs[0].columns, defs[0].primary);
      if err.None? {
        WithKeysKeep(t1, defs[1..]);
        var r := WithKeys(t1, defs[1..]).1;
        assert r.indexes[..|t1.indexes|] == t1.indexes;
        assert r.indexes[..|t.indexes|] == t1.indexes[..|t.indexes|];
      }
    }
  }

  lemma {:induction false} WithKeysAdded(t: Table, defs: seq<IndexDef>)
    ensures WithKeys(t, defs).0.None? ==>
      |WithKeys(t, defs).1.indexes| == |t.indexes| + |defs| &&
      forall k :: 0 <= k < |defs| ==>
        WithKeys(t, defs).1.indexes[|t.indexes| + k].name == defs[k].name &&
        WithKeys(t, defs).1.indexes[|t.indexes| + k].primary == defs[k].primary &&
        WithKeys(t, defs).1.indexes[|t.indexes| + k].columns == NamedColumns(t.columns, defs[k].columns)
    decreases |defs|
  {
    if |defs| > 0 {
      var (err, t1) := WithKey(t, defs[0].name, defs[0].columns, defs[0].primary);
      if err.None? {
        WithKeysAdded(t1, defs[1..]);
        WithKeysKeep(t1, defs[1..]);
        var r := WithKeys(t1, defs[1..]).1;
        assert r.indexes[..|t1.indexes|] == t1.indexes;
        if WithKeys(t, defs).0.None? {
          forall k | 0 <= k < |defs|
            ensures r.indexes[|t.indexes| + k].name == defs[k].name
            ensures r.indexes[|t.indexes| + k].primary == defs[k].primary
            ensures r.indexes[|t.indexes| + k].columns == NamedColumns(t.columns, defs[k].columns)
          {
            if k == 0 {
              assert r.indexes[|t.indexes|] == t1.indexes[|t.indexes|];
            } else {
              assert defs[k] == defs[1..][k - 1];
            }
          }
        }
      }
    }
  }

  /** A table under construction: Analyze and addKey update it in place. */
  class TableDraft {
    var name: string
    var engine: Engine
    var columns: seq<Column>
    var indexes: seq<Index>
    var rowFormat: RowFormat

    constructor (name: string, engine: Engine, columns: seq<Column>, rowFormat: RowFormat)
      ensures Value() == Table(name, engine, columns, [], rowFormat)
    {
      this.name := name;
      this.engine := engine;
      this.columns := columns;
      this.indexes := [];
      this.rowFormat := rowFormat;
    }

    /** The table the draft currently holds. */
    function Value(): Table
      reads this
    {
      Table(name, engine, columns, indexes, rowFormat)
    }

    /** Table.Analyze: checks the table and settles its row format. */
    method Analyze(env: Env) returns (err: Option<Error>)
      modifies this
      ensures err == AnalyzeError(old(Value()))
      ensures Value() == Analyzed(old(Value()), env)
    {
      if name == "" {
        return Some(ErrMissing);
      } else if engine == "" {
        return Some(ErrInvalid);
      } else if |columns| == 0 {
        return Some(ErrMissing);
      }
      rowFormat := Engines.RowFormat(engine, columns, rowFormat, env);
      return None;
    }

    /** Table.addKey: appends a key over the named columns. */
    method AddKey(keyName: string, names: seq<string>, primary: bool) returns (err: Option<Error>)
      modifies this
      ensures (err, Value()) == WithKey(old(Value()), keyName, names, primary)
    {
      var cols := ColumnsNamed(columns, names);
      if |cols| == 0 {
        return Some(ErrInvalid);
      }
      indexes := indexes + [Index(keyName, cols, primary)];
      return None;
    }

    /** Table.addKeys: adds the defined keys in order, up to the first failure. */
    method AddKeys(defs: seq<IndexDef>) returns (err: Option<Error>)
      modifies this
      ensures (err, Value()) == WithKeys(old(Value()), defs)
    {
      if |defs| == 0 {
        return None;
      }
      for k := 0 to |defs|
        invariant WithKeys(old(Value()), defs) == WithKeys(Value(), defs[k..])
      {
        assert defs[k..][1..] == defs[k + 1..];
        err := AddKey(defs[k].name, defs[k].columns, defs[k].primary);
        if err.Some? {
          return;
        }
      }
      return None;
    }
  }
}
