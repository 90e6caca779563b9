/** internal/mysql/engine.go: the storage engines (InnoDB, MyISAM) and how
    each one sizes keys and rows and picks a row format. */
module Engines {
  import opened Uint64
  import opened Strings
  import opened RowFormats
  import opened Externals
  import opened Columns
  import opened Indexes
  import DataItems

  /** An engine, by the name the source gives it; "" when not recognised. */
  type Engine = string

  const INNODB: Engine := "InnoDB"
  const MYISAM: Engine := "MyISAM"
  const UNRECOGNIZED: Engine := ""

  /** ToEngine: InnoDB by default or by name, MyISAM by name, names matched
      without regard to case; anything else is not recognised. */
  function ToEngine(s: string): (e: Engine)
    ensures e == INNODB || e == MYISAM || e == UNRECOGNIZED
  {
    var l := Lower(s);
    if l == "" || l == Lower(INNODB) then INNODB
    else if l == Lower(MYISAM) then MYISAM
    else UNRECOGNIZED
  }

  /** Which names give which engine. */
  lemma ToEngineCases(s: string)
    ensures ToEngine(s) == INNODB <==> s == "" || EqualFold(s, INNODB)
    ensures ToEngine(s) == MYISAM <==> EqualFold(s, MYISAM)
    ensures ToEngine(s) == UNRECOGNIZED <==> s != "" && !EqualFold(s, INNODB) && !EqualFold(s, MYISAM)
  {
    EqualFoldIffSameLower(s, INNODB);
    EqualFoldIffSameLower(s, MYISAM);
    EngineNamesLower();
    assert "innodb"[0] != "myisam"[0];
  }

  lemma EngineNamesLower()
    ensures Lower(INNODB) == "innodb" && Lower(MYISAM) == "myisam"
  {
    FoldsTo(INNODB, "innodb");
    FoldsTo(MYISAM, "myisam");
  }

  // ---------------------------------------------------------------------
  // Fields

  /** The columns as report items, in order. */
  function FieldsOf(cols: seq<Column>, env: Env): (r: seq<DataItems.Data>)
    ensures |r| == |cols|
    ensures forall p :: 0 <= p < |cols| ==>
      r[p].name == cols[p].name && r[p].kind == Columns.Kind(cols[p], env) && r[p].size == ColumnSize(cols[p])
  {
    seq(|cols|, p requires 0 <= p < |cols| => Field(cols[p], env))
  }

  /** Engine.Fields: every column reported unchanged, whatever the engine. */
  method Fields(e: Engine, cols: seq<Column>, env: Env) returns (res: seq<DataItems.Data>)
    ensures res == FieldsOf(cols, env)
  {
    res := [];
    for p := 0 to |cols|
      invariant res == FieldsOf(cols[..p], env)
    {
      res := res + [Field(cols[p], env)];
    }
    assert cols[..|cols|] == cols;
  }

  // ---------------------------------------------------------------------
  // Keys

  /** The clustered index InnoDB adds when a table has no primary key. */
  const DEFAULT_CLUSTERED_INDEX_SIZE: U64 := 6

  /** The primary key's size that InnoDB copies into every secondary key: the
      key at `primary`, or the 6-byte clustered index when there is none. */
  function PrimaryKeySize(keys: seq<Index>, primary: int): (r: Range)
    requires primary >= -1
    ensures 0 <= primary < |keys| ==> r == Total(keys[primary].columns)
    ensures primary == -1 || primary >= |keys| ==> r == Both(DEFAULT_CLUSTERED_INDEX_SIZE)
  {
    if primary != -1 && |keys| > primary then Total(keys[primary].columns)
    else Both(DEFAULT_CLUSTERED_INDEX_SIZE)
  }

  /** One InnoDB key: a primary key as it is, a secondary key enlarged by the
      primary key's size. */
  function InnoDBKey(k: Index, pk: Range): DataItems.Data
  {
    var s := Total(k.columns);
    if k.primary then Item(k) else DataItems.NewDataSize(Item(k), Add(s.min, pk.min), Add(s.max, pk.max))
  }

  function InnoDBKeysOf(keys: seq<Index>, primary: int): (r: seq<DataItems.Data>)
    requires primary >= -1
    ensures |r| == |keys|
  {
    seq(|keys|, p requires 0 <= p < |keys| => InnoDBKey(keys[p], PrimaryKeySize(keys, primary)))
  }

  /** innoDBKeys: every key, in order, sized for InnoDB. */
  method InnoDBKeys(keys: seq<Index>, primary: int) returns (res: seq<DataItems.Data>)
    requires primary >= -1
    ensures res == InnoDBKeysOf(keys, primary)
  {
    var pk: Range;
    if primary != -1 && |keys| > primary {
      pk := Indexes.Size(keys[primary]);
    } else {
      pk := Both(DEFAULT_CLUSTERED_INDEX_SIZE);
    }
    assert pk == PrimaryKeySize(keys, primary);
    res := [];
    for p := 0 to |keys|
      invariant |res| == p
      invariant forall j {:trigger res[j]} :: 0 <= j < p ==> res[j] == InnoDBKey(keys[j], pk)
    {
      var k := keys[p];
      var s := Indexes.Size(k);
      var key: DataItems.Data;
      if k.primary {
        key := Item(k);
      } else {
        key := DataItems.NewDataSize(Item(k), Add(s.min, pk.min), Add(s.max, pk.max));
      }
      assert key == InnoDBKey(k, pk);
      res := res + [key];
    }
  }

  /** InnoDB keeps the order, names and kinds of the keys and their sizes for
      primary keys; every secondary key also holds the primary key (or the
      6-byte clustered index when there is none). */
  lemma InnoDBKeysShape(keys: seq<Index>, primary: int, p: nat)
    requires primary >= -1 && p < |keys|
    ensures InnoDBKeysOf(keys, primary)[p].name == keys[p].name
    ensures InnoDBKeysOf(keys, primary)[p].kind == Indexes.Kind(keys[p])
    ensures keys[p].primary ==> InnoDBKeysOf(keys, primary)[p].size == Total(keys[p].columns)
    ensures !keys[p].primary && 0 <= primary < |keys| ==>
      InnoDBKeysOf(keys, primary)[p].size == Plus(Total(keys[p].columns), Total(keys[primary].columns))
    ensures !keys[p].primary && (primary == -1 || primary >= |keys|) ==>
      InnoDBKeysOf(keys, primary)[p].size == Plus(Total(keys[p].columns), Both(6))
  {
  }

  /** One MyISAM key: each bound mapped by the key-length estimate. */
  function MyISAMKey(k: Index, env: Env): DataItems.Data
  {
    var s := Total(k.columns);
    DataItems.NewDataSize(Item(k), env.keyLength(s.min), env.keyLength(s.max))
  }

  function MyISAMKeysOf(keys: seq<Index>, env: Env): (r: seq<DataItems.Data>)
    ensures |r| == |keys|
  {
    seq(|keys|, p requires 0 <= p < |keys| => MyISAMKey(keys[p], env))
  }

  /** myISAMKeys: every key, in order, sized for MyISAM. */
  method MyISAMKeys(keys: seq<Index>, env: Env) returns (res: seq<DataItems.Data>)
    ensures res == MyISAMKeysOf(keys, env)
  {
    res := [];
    for p := 0 to |keys|
      invariant |res| == p
      invariant forall j :: 0 <= j < p ==> res[j] == MyISAMKey(keys[j], env)
    {
      var s := Indexes.Size(keys[p]);
      res := res + [DataItems.NewDataSize(Item(keys[p]), env.keyLength(s.min), env.keyLength(s.max))];
    }
  }

  /** MyISAM keeps the order, names and kinds of the keys and maps each bound
      on its own, so keys over equally sized columns get equal sizes. */
  lemma MyISAMKeysShape(keys: seq<Index>, env: Env, p: nat, q: nat)
    requires p < |keys| && q < |keys|
    ensures MyISAMKeysOf(keys, env)[p].name == keys[p].name
    ensures MyISAMKeysOf(keys, env)[p].kind == Indexes.Kind(keys[p])
    ensures MyISAMKeysOf(keys, env)[p].size.min == env.keyLength(Total(keys[p].columns).min)
    ensures MyISAMKeysOf(keys, env)[p].size.max == env.keyLength(Total(keys[p].columns).max)
    ensures Total(keys[p].columns) == Total(keys[q].columns) ==>
      MyISAMKeysOf(keys, env)[p].size == MyISAMKeysOf(keys, env)[q].size
  {
  }

  /** Engine.Keys: the keys sized by the engine; none for an unrecognised engine. */
  function KeysOf(e: Engine, indexes: seq<Index>, primary: int, env: Env): seq<DataItems.Data>
    requires primary >= -1
  {
    if e == INNODB then InnoDBKeysOf(indexes, primary)
    else if e == MYISAM then MyISAMKeysOf(indexes, env)
    else []
  }

  method Keys(e: Engine, indexes: seq<Index>, primary: int, env: Env) returns (res: seq<DataItems.Data>)
    requires primary >= -1
    ensures res == KeysOf(e, indexes, primary, env)
  {
    if e == INNODB {
      res := InnoDBKeys(indexes, primary);
    } else if e == MYISAM {
      res := MyISAMKeys(indexes, env);
    } else {
      res := [];
    }
  }

  // ---------------------------------------------------------------------
  // Row format

  /** innoDBRowFormat: the format asked for, dynamic by default. */
  function InnoDBRowFormat(cur: RowFormat): (f: RowFormat)
    ensures cur != UNKNOWN ==> f == cur
    ensures cur == UNKNOWN ==> f == DYNAMIC
  {
    if cur != UNKNOWN then cur else DYNAMIC
  }

  /** Some column has a variable-length type. */
  predicate HasVarColumn(cols: seq<Column>, env: Env)
  {
    exists i :: 0 <= i < |cols| && env.isVar(cols[i].dataType)
  }

  /** The MyISAM format: compressed when asked for, otherwise dynamic when a
      column has a variable length and static when none has. */
  function MyISAMFormat(cols: seq<Column>, cur: RowFormat, env: Env): RowFormat
  {
    if cur == COMPRESSED then cur
    else if HasVarColumn(cols, env) then DYNAMIC
    else STATIC
  }

  /** myISAMRowFormat: the search for a variable-length column. */
  method MyISAMRowFormat(cols: seq<Column>, cur: RowFormat, env: Env) returns (f: RowFormat)
    ensures f == MyISAMFormat(cols, cur, env)
  {
    if cur == COMPRESSED {
      return cur;
    }
    for i := 0 to |cols|
      invariant forall j :: 0 <= j < i ==> !env.isVar(cols[j].dataType)
    {
      if env.isVar(cols[i].dataType) {
        return DYNAMIC;
      }
    }
    return STATIC;
  }

  /** Engine.RowFormat: the format the engine stores rows in. */
  function RowFormatOf(e: Engine, cols: seq<Column>, cur: RowFormat, env: Env): RowFormat
  {
    if e == INNODB then InnoDBRowFormat(cur)
    else if e == MYISAM then MyISAMFormat(cols, cur, env)
    else UNKNOWN
  }

  method RowFormat(e: Engine, cols: seq<Column>, cur: RowFormat, env: Env) returns (f: RowFormat)
    ensures f == RowFormatOf(e, cols, cur, env)
  {
    if e == INNODB {
      f := InnoDBRowFormat(cur);
    } else if e == MYISAM {
      f := MyISAMRowFormat(cols, cur, env);
    } else {
      f := UNKNOWN;
    }
  }

  /** Resolving a resolved format again changes nothing. */
  lemma RowFormatIdempotent(e: Engine, cols: seq<Column>, cur: RowFormat, env: Env)
    ensures RowFormatOf(e, cols, RowFormatOf(e, cols, cur, env), env) == RowFormatOf(e, cols, cur, env)
  {
  }

  /** MyISAM always ends up compressed, dynamic or static; it is dynamic
      exactly when not asked for compressed and some column is variable. */
  lemma MyISAMFormatCases(cols: seq<Column>, cur: RowFormat, env: Env)
    ensures MyISAMFormat(cols, cur, env) in {COMPRESSED, DYNAMIC, STATIC}
    ensures MyISAMFormat(cols, cur, env) == DYNAMIC <==> cur != COMPRESSED && HasVarColumn(cols, env)
    ensures MyISAMFormat(cols, cur, env) == COMPRESSED <==> cur == COMPRESSED
  {
  }

  // ---------------------------------------------------------------------
  // Row size

  /** innoDBRowSize: the column sizes added up, whatever the row format. */
  method InnoDBRowSize(cols: seq<Column>, cur: RowFormat) returns (r: Range)
    ensures r == Total(cols)
  {
    r := Range(0, 0);
    for p := 0 to |cols|
      invariant r == Total(cols[..p])
    {
      var s := ColumnSize(cols[p]);
      assert cols[..p + 1] == cols[..p] + [cols[p]];
      TotalAppend(cols[..p], cols[p]);
      r := Range(Add(r.min, s.min), Add(r.max, s.max));
    }
    assert cols[..|cols|] == cols;
  }

  const STATIC_DELETE_FLAG: U64 := 1
  const STATIC_HEADER: U64 := 1
  const DYNAMIC_HEADER: U64 := 3

  /** Number of columns that accept NULL. */
  function Nullable(cols: seq<Column>): (n: nat)
    ensures n <= |cols|
  {
    if |cols| == 0 then 0
    else Nullable(cols[..|cols| - 1]) + (if cols[|cols| - 1].notNull then 0 else 1)
  }

  /** Number of columns with a variable-length type. */
  function Variables(cols: seq<Column>, env: Env): (n: nat)
    ensures n <= |cols|
  {
    if |cols| == 0 then 0
    else Variables(cols[..|cols| - 1], env) + (if env.isVar(cols[|cols| - 1].dataType) then 1 else 0)
  }

  /** Number of columns with a string type. */
  function Strs(cols: seq<Column>, env: Env): (n: nat)
    ensures n <= |cols|
  {
    if |cols| == 0 then 0
    else Strs(cols[..|cols| - 1], env) + (if env.isString(cols[|cols| - 1].dataType) then 1 else 0)
  }

  /** The dynamic-format bound for data of `size` bytes: header, one bit per
      column, one byte per string column, the data, one bit per nullable column. */
  function DynamicBound(num: U64, ns: U64, nn: U64, size: U64): U64
  {
    Add(Add(Add(Add(DYNAMIC_HEADER, Add(num, 7) / 8), ns), size), Add(nn, 7) / 8)
  }

  /** The MyISAM row length per format, with uint64 arithmetic and counters. */
  function MyISAMRow(cols: seq<Column>, cur: RowFormat, env: Env): Range
  {
    var t := Total(cols);
    var nn := Nullable(cols) % MODULUS;
    var nv := Variables(cols, env) % MODULUS;
    var ns := Strs(cols, env) % MODULUS;
    var num := |cols| % MODULUS;
    if cur == STATIC then
      Both(Add(Add(Add(STATIC_HEADER, t.max), Add(Add(nn, STATIC_DELETE_FLAG), 7) / 8), nv))
    else if cur == DYNAMIC then
      Range(DynamicBound(num, ns, nn, t.min), DynamicBound(num, ns, nn, t.max))
    else if cur == COMPRESSED then
      Range(Add(STATIC_HEADER, t.min), Add(DYNAMIC_HEADER, t.max))
    else Both(0)
  }

  /** One more column adds its size to the total. */
  lemma TotalStep(cols: seq<Column>, p: nat)
    requires p < |cols|
    ensures Total(cols[..p + 1]) == Plus(Total(cols[..p]), ColumnSize(cols[p]))
  {
    assert cols[..p + 1] == cols[..p] + [cols[p]];
    TotalAppend(cols[..p], cols[p]);
  }

  /** One more column adds to each count exactly when it qualifies. */
  lemma CountsStep(cols: seq<Column>, p: nat, env: Env)
    requires p < |cols|
    ensures Nullable(cols[..p + 1]) == Nullable(cols[..p]) + (if cols[p].notNull then 0 else 1)
    ensures Variables(cols[..p + 1], env) == Variables(cols[..p], env) + (if env.isVar(cols[p].dataType) then 1 else 0)
    ensures Strs(cols[..p + 1], env) == Strs(cols[..p], env) + (if env.isString(cols[p].dataType) then 1 else 0)
  {
    assert cols[..p + 1][..p] == cols[..p];
  }

  /** A uint64 counter that tracks `a` modulo 2^64 still does after counting one more. */
  lemma CountMod(a: nat, v: U64, inc: bool)
    requires v == a % MODULUS
    ensures (if inc then Add(v, 1) else v) == (a + if inc then 1 else 0) % MODULUS
  {
    if inc {
      AddMod(a, 1);
    }
  }

  /** The counters after one more column, from the counters before it. */
  lemma CountersStep(cols: seq<Column>, p: nat, env: Env, nn: U64, nv: U64, ns: U64)
    requires p < |cols|
    requires nn == Nullable(cols[..p]) % MODULUS
    requires nv == Variables(cols[..p], env) % MODULUS
    requires ns == Strs(cols[..p], env) % MODULUS
    ensures (if !cols[p].notNull then Add(nn, 1) else nn) == Nullable(cols[..p + 1]) % MODULUS
    ensures (if env.isVar(cols[p].dataType) then Add(nv, 1) else nv) == Variables(cols[..p + 1], env) % MODULUS
    ensures (if env.isString(cols[p].dataType) then Add(ns, 1) else ns) == Strs(cols[..p + 1], env) % MODULUS
  {
    CountsStep(cols, p, env);
    CountMod(Nullable(cols[..p]), nn, !cols[p].notNull);
    CountMod(Variables(cols[..p], env), nv, env.isVar(cols[p].dataType));
    CountMod(Strs(cols[..p], env), ns, env.isString(cols[p].dataType));
  }

  /** The loop of myISAMRowSize: sizes and counters accumulated over the columns. */
  method MyISAMCounts(cols: seq<Column>, env: Env) returns (t: Range, nn: U64, nv: U64, ns: U64)
    ensures t == Total(cols)
    ensures nn == Nullable(cols) % MODULUS
    ensures nv == Variables(cols, env) % MODULUS
    ensures ns == Strs(cols, env) % MODULUS
  {
    t, nn, nv, ns := Range(0, 0), 0, 0, 0;
    for p := 0 to |cols|
      invariant t == Total(cols[..p])
      invariant nn == Nullable(cols[..p]) % MODULUS
      invariant nv == Variables(cols[..p], env) % MODULUS
      invariant ns == Strs(cols[..p], env) % MODULUS
    {
      var c := cols[p];
      var s := ColumnSize(c);
      TotalStep(cols, p);
      CountersStep(cols, p, env, nn, nv, ns);
      t := Range(Add(t.min, s.min), Add(t.max, s.max));
      if !c.notNull {
        nn := Add(nn, 1);
      }
      if env.isVar(c.dataType) {
        nv := Add(nv, 1);
      }
      if env.isString(c.dataType) {
        ns := Add(ns, 1);
      }
    }
    assert cols[..|cols|] == cols;
  }

  /** myISAMRowSize: one pass over the columns accumulating sizes and counts,
      then the formula of the row format. */
  method MyISAMRowSize(cols: seq<Column>, cur: RowFormat, env: Env) returns (r: Range)
    ensures r == MyISAMRow(cols, cur, env)
  {
    var t, nn, nv, ns := MyISAMCounts(cols, env);
    var num := |cols| % MODULUS;
    if cur == STATIC {
      r := Both(Add(Add(Add(STATIC_HEADER, t.max), Add(Add(nn, STATIC_DELETE_FLAG), 7) / 8), nv));
    } else if cur == DYNAMIC {
      r := Range(DynamicBound(num, ns, nn, t.min), DynamicBound(num, ns, nn, t.max));
    } else if cur == COMPRESSED {
      r := Range(Add(STATIC_HEADER, t.min), Add(DYNAMIC_HEADER, t.max));
    } else {
      r := Both(0);
    }
  }

  /** The static-format length for the largest data `max`, `nn` nullable
      and `nv` variable-length columns. */
  function StaticBound(max: U64, nn: U64, nv: U64): U64
  {
    Add(Add(Add(STATIC_HEADER, max), Add(Add(nn, STATIC_DELETE_FLAG), 7) / 8), nv)
  }

  lemma StaticBoundExact(max: U64, nn: U64, nv: U64)
    requires max + nn + nv + 16 < MODULUS
    ensures StaticBound(max, nn, nv) == 1 + max + (nn + 8) / 8 + nv
  {
  }

  lemma DynamicBoundExact(num: U64, ns: U64, nn: U64, size: U64)
    requires num + ns + nn + size + 16 < MODULUS
    ensures DynamicBound(num, ns, nn, size) == 3 + (num + 7) / 8 + ns + size + (nn + 7) / 8
  {
  }

  /** Bounds that keep every MyISAM formula free of overflow. */
  predicate Small(cols: seq<Column>)
  {
    ExactMin(Sizes(cols)) + 4 * |cols| + 16 < MODULUS && ExactMax(Sizes(cols)) + 4 * |cols| + 16 < MODULUS
  }

  /** Without overflow the accumulated sizes and counts are exact. */
  lemma SmallIsExact(cols: seq<Column>, env: Env)
    requires Small(cols)
    ensures Total(cols).min == ExactMin(Sizes(cols)) && Total(cols).max == ExactMax(Sizes(cols))
    ensures Nullable(cols) % MODULUS == Nullable(cols)
    ensures Variables(cols, env) % MODULUS == Variables(cols, env)
    ensures Strs(cols, env) % MODULUS == Strs(cols, env)
    ensures |cols| % MODULUS == |cols|
  {
    SumWraps(Sizes(cols));
    ModSmall(ExactMin(Sizes(cols)));
    ModSmall(ExactMax(Sizes(cols)));
    ModSmall(Nullable(cols));
    ModSmall(Variables(cols, env));
    ModSmall(Strs(cols, env));
    ModSmall(|cols|);
  }

  lemma ModSmall(x: nat)
    requires x < MODULUS
    ensures x % MODULUS == x
  {
  }

  /** When nothing overflows, static MyISAM rows take 1 + the largest data
      + (nullable columns + 8) / 8 + the variable-length columns. */
  lemma MyISAMStaticExact(cols: seq<Column>, env: Env)
    requires Small(cols)
    ensures MyISAMRow(cols, STATIC, env) ==
      Both(1 + ExactMax(Sizes(cols)) + (Nullable(cols) + 8) / 8 + Variables(cols, env))
  {
    SmallIsExact(cols, env);
    var t := Total(cols);
    assert MyISAMRow(cols, STATIC, env) == Both(StaticBound(t.max, Nullable(cols), Variables(cols, env)));
    StaticBoundExact(t.max, Nullable(cols), Variables(cols, env));
  }

  /** When nothing overflows, each bound of a dynamic MyISAM row is 3 + (columns
      + 7) / 8 + the string columns + the data + (nullable columns + 7) / 8. */
  lemma MyISAMDynamicExact(cols: seq<Column>, env: Env)
    requires Small(cols)
    ensures MyISAMRow(cols, DYNAMIC, env).min ==
      3 + (|cols| + 7) / 8 + Strs(cols, env) + ExactMin(Sizes(cols)) + (Nullable(cols) + 7) / 8
    ensures MyISAMRow(cols, DYNAMIC, env).max ==
      3 + (|cols| + 7) / 8 + Strs(cols, env) + ExactMax(Sizes(cols)) + (Nullable(cols) + 7) / 8
  {
    SmallIsExact(cols, env);
    var t := Total(cols);
    var num, ns, nn := |cols|, Strs(cols, env), Nullable(cols);
    assert MyISAMRow(cols, DYNAMIC, env) == Range(DynamicBound(num, ns, nn, t.min), DynamicBound(num, ns, nn, t.max));
    DynamicBoundExact(num, ns, nn, t.min);
    DynamicBoundExact(num, ns, nn, t.max);
  }

  /** When nothing overflows, compressed MyISAM rows take the data plus a
      header of 1 byte (min) to 3 bytes (max). */
  lemma MyISAMCompressedExact(cols: seq<Column>, env: Env)
    requires Small(cols)
    ensures MyISAMRow(cols, COMPRESSED, env).min == 1 + ExactMin(Sizes(cols))
    ensures MyISAMRow(cols, COMPRESSED, env).max == 3 + ExactMax(Sizes(cols))
  {
    SmallIsExact(cols, env);
  }

  /** Engine.RowSize: the row length for the engine and row format; (0, 0)
      for an unrecognised engine. */
  function RowSizeOf(e: Engine, cols: seq<Column>, cur: RowFormat, env: Env): Range
  {
    if e == INNODB then Total(cols)
    else if e == MYISAM then MyISAMRow(cols, cur, env)
    else Both(0)
  }

  method RowSize(e: Engine, cols: seq<Column>, cur: RowFormat, env: Env) returns (r: Range)
    ensures r == RowSizeOf(e, cols, cur, env)
  {
    if e == INNODB {
      r := InnoDBRowSize(cols, cur);
    } else if e == MYISAM {
      r := MyISAMRowSize(cols, cur, env);
    } else {
      r := Both(0);
    }
  }

  /** An unrecognised engine reports no keys, no row format and empty rows;
      InnoDB rows are the column sizes whatever the row format. */
  lemma DispatchFacts(e: Engine, cols: seq<Column>, indexes: seq<Index>, cur: RowFormat, other: RowFormat, env: Env)
    ensures e != INNODB && e != MYISAM ==>
      KeysOf(e, indexes, -1, env) == [] && RowFormatOf(e, cols, cur, env) == UNKNOWN && RowSizeOf(e, cols, cur, env) == Both(0)
    ensures RowSizeOf(INNODB, cols, cur, env) == RowSizeOf(INNODB, cols, other, env) == Total(cols)
  {
  }
}
