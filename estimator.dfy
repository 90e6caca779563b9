/** internal/mysql/estimator.go: the estimator's settings, the options that
    adjust them, and the report rows that Run assembles from the parsed
    storage. Printing the rows is not part of this model. */
module Estimators {
  import opened Uint64
  import opened Errors
  import opened Externals
  import opened Statements
  import Size
  import DataItems
  import Engines
  import Tables
  import Databases
  import Storages
  import Parser

  const COMMAND: string := "mysql"
  const DEFAULT_PER_N: U64 := 100
  const DEFAULT_PRECISION: U64 := 2

  /** The header cells of the report. */
  const DATA_NAME: string := "Data"
  const DATA_TYPE: string := "Type"
  const MIN_ROW: string := "Per row (min)"
  const MAX_ROW: string := "Per row (max)"

  /** The settings of an estimator. */
  datatype Config = Config(batch: bool, verbose: bool, precision: U8, perN: U64)

  /** The settings of an estimator that no option has touched. */
  const ZERO: Config := Config(false, false, 0, 0)

  /** The options an estimator is built with. */
  datatype Configurator =
    | SetPerN(n: U64)
    | SetPrecision(p: U64)
    | SetVerbose(verbose: bool)
    | SetBatchMode(enabled: bool)

  /** Whether an option is refused whatever the settings: a zero per-N
      count, or a precision above the largest uint8. */
  predicate Refused(opt: Configurator)
  {
    (opt.SetPerN? && opt.n == 0) || (opt.SetPrecision? && opt.p > MAX_U8)
  }

  /** The error kind of a refused option. */
  function Refusal(opt: Configurator): Error
  {
    if opt.SetPerN? then ErrMissing else ErrInvalid
  }

  /** One option applied to the settings. */
  function Apply(c: Config, opt: Configurator): Result<Config>
  {
    match opt
    case SetPerN(n) => if n == 0 then Err(ErrMissing) else Ok(c.(perN := n))
    case SetPrecision(p) => if p > MAX_U8 then Err(ErrInvalid) else Ok(c.(precision := p))
    case SetVerbose(v) => Ok(c.(verbose := v))
    case SetBatchMode(b) => Ok(c.(batch := b))
  }

  /** The options applied in order, stopping at the first refused one. */
  function Configured(c: Config, opts: seq<Configurator>): Result<Config>
    decreases |opts|
  {
    if |opts| == 0 then Ok(c)
    else
      match Apply(c, opts[0])
      case Err(e) => Err(e)
      case Ok(next) => Configured(next, opts[1..])
  }

  /** The defaults placed before the caller's options. */
  const DEFAULTS: seq<Configurator> := [SetPerN(DEFAULT_PER_N), SetPrecision(DEFAULT_PRECISION)]

  /** Estimate: the settings built from the defaults then the caller's options. */
  function EstimateOf(opts: seq<Configurator>): Result<Config>
  {
    Configured(ZERO, DEFAULTS + opts)
  }

  /** A row of the report: six cells. */
  type Row = seq<string>

  /** xRow: "X <n> (min)" or "X <n> (max)". */
  function XRow(i: U64, max: bool): string
  {
    "X " + Size.FormatUint(i) + (if max then " (max)" else " (min)")
  }

  function Header(c: Config): (r: Row)
    ensures |r| == 6
    ensures r[4] == XRow(c.perN, false) && r[5] == XRow(c.perN, true)
  {
    [DATA_NAME, DATA_TYPE, MIN_ROW, MAX_ROW, XRow(c.perN, false), XRow(c.perN, true)]
  }

  /** blank: as many empty cells as the header has. */
  function Blank(c: Config): (r: Row)
    ensures |r| == |Header(c)|
    ensures forall k :: 0 <= k < |r| ==> r[k] == ""
  {
    seq(|Header(c)|, k => "")
  }

  /** row: the item's name and kind, its size per row, and its size for
      perN rows (multiplied as uint64), printed with the precision. */
  function RowOf(d: DataItems.Data, c: Config): Row
  {
    [d.name, d.kind,
     Size.HumanSize(d.size.min, c.precision), Size.HumanSize(d.size.max, c.precision),
     Size.HumanSize(Mul(d.size.min, c.perN), c.precision), Size.HumanSize(Mul(d.size.max, c.perN), c.precision)]
  }

  /** A line of the report before it is printed: the row of a field or a
      key, of a table, of a database, or a blank row. */
  datatype Line = ItemLine(item: DataItems.Data) | TableLine(table: Tables.Table) | DatabaseLine(db: Databases.Database) | BlankLine

  function Render(l: Line, c: Config, env: Env): Row
  {
    match l
    case ItemLine(d) => RowOf(d, c)
    case TableLine(t) => RowOf(Tables.Item(t, env), c)
    case DatabaseLine(d) => RowOf(Databases.Item(d, env), c)
    case BlankLine => Blank(c)
  }

  /** The lines printed as rows, one row per line, in order. */
  function Rendered(ls: seq<Line>, c: Config, env: Env): (r: seq<Row>)
    ensures |r| == |ls|
    ensures forall k :: 0 <= k < |ls| ==> r[k] == Render(ls[k], c, env)
  {
    seq(|ls|, k requires 0 <= k < |ls| => Render(ls[k], c, env))
  }

  /** One line per item, in order. */
  function ItemLines(items: seq<DataItems.Data>): (r: seq<Line>)
    ensures |r| == |items|
    ensures forall k :: 0 <= k < |items| ==> r[k] == ItemLine(items[k])
  {
    seq(|items|, k requires 0 <= k < |items| => ItemLine(items[k]))
  }

  /** The lines of one table: its fields and keys when verbose, its own
      line, then a blank line when verbose. */
  function TableLines(t: Tables.Table, verbose: bool, env: Env): seq<Line>
  {
    (if verbose then DetailLines(t, env) else [])
    + [TableLine(t)]
    + (if verbose then [BlankLine] else [])
  }

  /** The lines of a table's fields, then of its keys. */
  function DetailLines(t: Tables.Table, env: Env): seq<Line>
  {
    ItemLines(Tables.FieldsOf(t, env)) + ItemLines(Tables.KeysOf(t, env))
  }

  /** The lines of the tables, in order. */
  function TablesLines(ts: seq<Tables.Table>, verbose: bool, env: Env): seq<Line>
  {
    if |ts| == 0 then [] else TablesLines(ts[..|ts| - 1], verbose, env) + TableLines(ts[|ts| - 1], verbose, env)
  }

  /** The lines of one database: its tables' lines, then its own line. */
  function DatabaseLines(d: Databases.Database, verbose: bool, env: Env): seq<Line>
  {
    TablesLines(d.tables, verbose, env) + [DatabaseLine(d)]
  }

  /** The blank line that separates a database from the previous one, when verbose. */
  function Separator(p: nat, verbose: bool): seq<Line>
  {
    if p > 0 && verbose then [BlankLine] else []
  }

  /** The lines of the databases, in order. */
  function ReportLines(dbs: Storages.Storage, verbose: bool, env: Env): seq<Line>
  {
    if |dbs| == 0 then []
    else ReportLines(dbs[..|dbs| - 1], verbose, env) + Separator(|dbs| - 1, verbose) + DatabaseLines(dbs[|dbs| - 1], verbose, env)
  }

  /** The rows Run prints below the header. */
  function Report(dbs: Storages.Storage, c: Config, env: Env): seq<Row>
  {
    Rendered(ReportLines(dbs, c.verbose, env), c, env)
  }

  /** Run up to the rows it prints: a process error without a per-N count,
      the parse error, a missing-data error without databases, or the report. */
  function RunOf(c: Config, stmts: seq<Statement>, env: Env): Result<seq<Row>>
  {
    if c.perN == 0 then Err(ErrProcess)
    else
      match Parser.ParseOf(stmts, env)
      case Err(e) => Err(e)
      case Ok(dbs) => if |dbs| == 0 then Err(ErrMissing) else Ok(Report(dbs, c, env))
  }

  /** The rows of the items, appended one at a time. */
  method Rows(items: seq<DataItems.Data>, c: Config, env: Env) returns (res: seq<Row>)
    ensures res == Rendered(ItemLines(items), c, env)
  {
    res := [];
    for k := 0 to |items|
      invariant |res| == k
      invariant forall j :: 0 <= j < k ==> res[j] == RowOf(items[j], c)
    {
      res := res + [RowOf(items[k], c)];
    }
  }

  /** The rows of one table, built from the engine's fields and keys and
      the table's size. */
  method TableReport(t: Tables.Table, c: Config, env: Env) returns (res: seq<Row>)
    ensures res == Rendered(TableLines(t, c.verbose, env), c, env)
  {
    ghost var lines: seq<Line> := [];
    res := [];
    if c.verbose {
      res := DetailRows(t, c, env);
      lines := DetailLines(t, env);
    }
    var size := Tables.Size(t, env);
    var row := RowOf(DataItems.Data(t.name, Tables.Kind(t), size), c);
    TableRow(t, size, c, env);
    RenderedAppendOne(lines, TableLine(t), res, row, c, env);
    lines := lines + [TableLine(t)];
    res := res + [row];
    if c.verbose {
      RenderedAppendOne(lines, BlankLine, res, Blank(c), c, env);
      lines := lines + [BlankLine];
      res := res + [Blank(c)];
    }
  }

  /** The rows of a table's fields, then of its keys. */
  method DetailRows(t: Tables.Table, c: Config, env: Env) returns (res: seq<Row>)
    ensures res == Rendered(DetailLines(t, env), c, env)
  {
    var fields := Engines.Fields(t.engine, t.columns, env);
    var keys := Tables.Keys(t, env);
    var fieldRows := Rows(fields, c, env);
    var keyRows := Rows(keys, c, env);
    RenderedAppend(ItemLines(fields), ItemLines(keys), c, env);
    res := fieldRows + keyRows;
  }

  /** The rows of one database, built from its tables' rows and its size. */
  method DatabaseReport(d: Databases.Database, c: Config, env: Env) returns (res: seq<Row>)
    ensures res == Rendered(DatabaseLines(d, c.verbose, env), c, env)
  {
    ghost var lines: seq<Line> := [];
    res := [];
    for q := 0 to |d.tables|
      invariant lines == TablesLines(d.tables[..q], c.verbose, env)
      invariant res == Rendered(lines, c, env)
    {
      TablesLinesStep(d.tables, q, c.verbose, env);
      var rows := TableReport(d.tables[q], c, env);
      RenderedAppend(lines, TableLines(d.tables[q], c.verbose, env), c, env);
      lines := lines + TableLines(d.tables[q], c.verbose, env);
      res := res + rows;
    }
    assert d.tables[..|d.tables|] == d.tables;
    var size := Databases.Size(d, env);
    var row := RowOf(DataItems.Data(d.name, Databases.KIND, size), c);
    DatabaseRow(d, size, c, env);
    RenderedAppendOne(lines, DatabaseLine(d), res, row, c, env);
    res := res + [row];
  }

  lemma TableRow(t: Tables.Table, size: Range, c: Config, env: Env)
    requires size == Tables.SizeOf(t, env)
    ensures RowOf(DataItems.Data(t.name, Tables.Kind(t), size), c) == Render(TableLine(t), c, env)
  {
    assert DataItems.Data(t.name, Tables.Kind(t), size) == Tables.Item(t, env);
  }

  lemma DatabaseRow(d: Databases.Database, size: Range, c: Config, env: Env)
    requires size == Databases.SizeOf(d, env)
    ensures RowOf(DataItems.Data(d.name, Databases.KIND, size), c) == Render(DatabaseLine(d), c, env)
  {
    assert DataItems.Data(d.name, Databases.KIND, size) == Databases.Item(d, env);
  }

  lemma RenderedAppendOne(ls: seq<Line>, l: Line, rs: seq<Row>, r: Row, c: Config, env: Env)
    requires rs == Rendered(ls, c, env) && r == Render(l, c, env)
    ensures rs + [r] == Rendered(ls + [l], c, env)
  {
    RenderedAppend(ls, [l], c, env);
  }

  lemma TablesLinesStep(ts: seq<Tables.Table>, q: nat, verbose: bool, env: Env)
    requires q < |ts|
    ensures TablesLines(ts[..q + 1], verbose, env) == TablesLines(ts[..q], verbose, env) + TableLines(ts[q], verbose, env)
  {
    assert ts[..q + 1][..q] == ts[..q];
  }

  lemma ReportLinesStep(dbs: Storages.Storage, p: nat, verbose: bool, env: Env)
    requires p < |dbs|
    ensures ReportLines(dbs[..p + 1], verbose, env)
      == ReportLines(dbs[..p], verbose, env) + Separator(p, verbose) + DatabaseLines(dbs[p], verbose, env)
  {
    assert dbs[..p + 1][..p] == dbs[..p];
  }

  /** The report rows of every database, in order. */
  method ReportRows(dbs: Storages.Storage, c: Config, env: Env) returns (res: seq<Row>)
    ensures res == Report(dbs, c, env)
  {
    ghost var lines: seq<Line> := [];
    res := [];
    for p := 0 to |dbs|
      invariant lines == ReportLines(dbs[..p], c.verbose, env)
      invariant res == Rendered(lines, c, env)
    {
      ReportLinesStep(dbs, p, c.verbose, env);
      var sep: seq<Row> := [];
      if p > 0 && c.verbose {
        sep := [Blank(c)];
      }
      var rows := DatabaseReport(dbs[p], c, env);
      RenderedStep(lines, Separator(p, c.verbose), DatabaseLines(dbs[p], c.verbose, env), res, sep, rows, c, env);
      lines := lines + Separator(p, c.verbose) + DatabaseLines(dbs[p], c.verbose, env);
      res := res + sep + rows;
    }
    assert dbs[..|dbs|] == dbs;
  }

  lemma RenderedStep(a: seq<Line>, b: seq<Line>, d: seq<Line>, ra: seq<Row>, rb: seq<Row>, rd: seq<Row>, c: Config, env: Env)
    requires ra == Rendered(a, c, env) && rb == Rendered(b, c, env) && rd == Rendered(d, c, env)
    ensures ra + rb + rd == Rendered(a + b + d, c, env)
  {
    RenderedAppend(a, b, c, env);
    RenderedAppend(a + b, d, c, env);
  }

  /** Rendering distributes over concatenation. */
  lemma RenderedAppend(a: seq<Line>, b: seq<Line>, c: Config, env: Env)
    ensures Rendered(a + b, c, env) == Rendered(a, c, env) + Rendered(b, c, env)
  {
    assert |Rendered(a + b, c, env)| == |Rendered(a, c, env) + Rendered(b, c, env)|;
    forall k | 0 <= k < |a + b|
      ensures Rendered(a + b, c, env)[k] == (Rendered(a, c, env) + Rendered(b, c, env))[k]
    {
      if k < |a| {
        assert (a + b)[k] == a[k];
      } else {
        assert (a + b)[k] == b[k - |a|];
      }
    }
  }

  /** An estimator: its settings are fields that the options set in place. */
  class Estimator {
    var batch: bool
    var verbose: bool
    var precision: U8
    var perN: U64

    /** new(Estimator): every setting zero. */
    constructor ()
      ensures Settings() == ZERO
    {
      batch, verbose, precision, perN := false, false, 0, 0;
    }

    function Settings(): Config
      reads this
    {
      Config(batch, verbose, precision, perN)
    }

    /** A Configurator called on the estimator. */
    method ApplyOption(opt: Configurator) returns (err: Option<Error>)
      modifies this
      ensures Apply(old(Settings()), opt).Err? ==>
        err == Some(Apply(old(Settings()), opt).error) && Settings() == old(Settings())
      ensures Apply(old(Settings()), opt).Ok? ==>
        err.None? && Settings() == Apply(old(Settings()), opt).value
    {
      match opt {
        case SetPerN(n) =>
          if n == 0 {
            return Some(ErrMissing);
          }
          perN := n;
        case SetPrecision(p) =>
          if p > MAX_U8 {
            return Some(ErrInvalid);
          }
          precision := p;
        case SetVerbose(v) =>
          verbose := v;
        case SetBatchMode(b) =>
          batch := b;
      }
      return None;
    }

    /** Run, up to the rows it prints. */
    method Run(stmts: seq<Statement>, env: Env) returns (r: Result<seq<Row>>)
      ensures r == RunOf(Settings(), stmts, env)
    {
      var c := Settings();
      if perN == 0 {
        return Err(ErrProcess);
      }
      var parsed := Parser.Parse(stmts, env);
      if parsed.Err? {
        return Err(parsed.error);
      }
      var dbs := parsed.value;
      if |dbs| == 0 {
        return Err(ErrMissing);
      }
      var rows := ReportRows(dbs, c, env);
      return Ok(rows);
    }
  }

  /** Estimate: a new estimator with the defaults, then the caller's
      options, applied; the first refused option aborts. */
  method Estimate(opts: seq<Configurator>) returns (r: Result<Estimator>)
    ensures r.Err? <==> EstimateOf(opts).Err?
    ensures r.Err? ==> r.error == EstimateOf(opts).error
    ensures r.Ok? ==> fresh(r.value) && EstimateOf(opts) == Ok(r.value.Settings())
  {
    var all := DEFAULTS + opts;
    var e := new Estimator();
    for k := 0 to |all|
      invariant fresh(e)
      invariant Configured(ZERO, all) == Configured(e.Settings(), all[k..])
    {
      assert all[k..][1..] == all[k + 1..];
      var err := e.ApplyOption(all[k]);
      if err.Some? {
        return Err(err.value);
      }
    }
    assert all[|all|..] == [];
    return Ok(e);
  }

  // ---------------------------------------------------------------------
  // Properties

  /** Whether an option is refused depends on the option alone, and an
      option that is accepted once changes nothing when applied again. */
  lemma ApplyRefusedIdempotent(c: Config, opt: Configurator)
    ensures Apply(c, opt).Err? <==> Refused(opt)
    ensures Apply(c, opt).Err? ==> Apply(c, opt).error == Refusal(opt)
    ensures Apply(c, opt).Ok? ==> Apply(Apply(c, opt).value, opt) == Apply(c, opt)
  {
  }

  /** The options fail exactly when one of them is refused, with the error
      of the first refused one. */
  lemma {:induction false} ConfiguredFirstRefusal(c: Config, opts: seq<Configurator>, k: nat)
    requires k < |opts| && Refused(opts[k])
    requires forall j :: 0 <= j < k ==> !Refused(opts[j])
    ensures Configured(c, opts) == Err(Refusal(opts[k]))
    decreases k
  {
    ApplyRefusedIdempotent(c, opts[0]);
    if k > 0 {
      ConfiguredFirstRefusal(Apply(c, opts[0]).value, opts[1..], k - 1);
    }
  }

  lemma {:induction false} ConfiguredAccepted(c: Config, opts: seq<Configurator>)
    requires forall j :: 0 <= j < |opts| ==> !Refused(opts[j])
    ensures Configured(c, opts).Ok?
    decreases |opts|
  {
    if |opts| > 0 {
      ApplyRefusedIdempotent(c, opts[0]);
      ConfiguredAccepted(Apply(c, opts[0]).value, opts[1..]);
    }
  }

  /** Whether no option after position k is of the same kind as opts[k]. */
  predicate LastOfKind(opts: seq<Configurator>, k: int)
    requires 0 <= k < |opts|
  {
    forall j :: k < j < |opts| ==> !SameKind(opts[j], opts[k])
  }

  predicate SameKind(a: Configurator, b: Configurator)
  {
    (a.SetPerN? && b.SetPerN?) || (a.SetPrecision? && b.SetPrecision?) ||
    (a.SetVerbose? && b.SetVerbose?) || (a.SetBatchMode? && b.SetBatchMode?)
  }

  /** The last SetPerN option decides the count; without one it stays. */
  lemma {:induction false} LastPerNWins(c: Config, opts: seq<Configurator>)
    requires Configured(c, opts).Ok?
    ensures (forall j :: 0 <= j < |opts| ==> !opts[j].SetPerN?) ==> Configured(c, opts).value.perN == c.perN
    ensures forall k :: 0 <= k < |opts| && opts[k].SetPerN? && LastOfKind(opts, k) ==>
      Configured(c, opts).value.perN == opts[k].n
    decreases |opts|
  {
    if |opts| > 0 {
      var next := Apply(c, opts[0]).value;
      LastPerNWins(next, opts[1..]);
      assert forall j :: 0 <= j < |opts[1..]| ==> opts[1..][j] == opts[j + 1];
    }
  }

  /** The last SetPrecision option decides the precision; without one it stays. */
  lemma {:induction false} LastPrecisionWins(c: Config, opts: seq<Configurator>)
    requires Configured(c, opts).Ok?
    ensures (forall j :: 0 <= j < |opts| ==> !opts[j].SetPrecision?) ==> Configured(c, opts).value.precision == c.precision
    ensures forall k :: 0 <= k < |opts| && opts[k].SetPrecision? && LastOfKind(opts, k) ==>
      Configured(c, opts).value.precision == opts[k].p
    decreases |opts|
  {
    if |opts| > 0 {
      var next := Apply(c, opts[0]).value;
      LastPrecisionWins(next, opts[1..]);
      assert forall j :: 0 <= j < |opts[1..]| ==> opts[1..][j] == opts[j + 1];
    }
  }

  /** Without options an estimator counts per 100 rows with 2 decimals; the
      caller's options are applied after those defaults. */
  lemma EstimateDefaults(opts: seq<Configurator>)
    ensures EstimateOf([]) == Ok(Config(false, false, 2, 100))
    ensures EstimateOf(opts) == Configured(Config(false, false, 2, 100), opts)
  {
    DefaultsFirst([]);
    DefaultsFirst(opts);
  }

  lemma DefaultsFirst(opts: seq<Configurator>)
    ensures EstimateOf(opts) == Configured(Config(false, false, 2, 100), opts)
  {
    var all := DEFAULTS + opts;
    assert all[0] == SetPerN(100) && all[1..][0] == SetPrecision(2) && all[1..][1..] == opts;
    var c1 := ZERO.(perN := 100);
    assert Apply(ZERO, all[0]) == Ok(c1);
    assert Configured(ZERO, all) == Configured(c1, all[1..]);
    assert Apply(c1, all[1..][0]) == Ok(Config(false, false, 2, 100));
    assert Configured(c1, all[1..]) == Configured(Config(false, false, 2, 100), opts);
  }

  /** Applying options never brings the per-N count back to zero. */
  lemma {:induction false} ConfiguredKeepsPerN(c: Config, opts: seq<Configurator>)
    requires c.perN > 0
    ensures Configured(c, opts).Ok? ==> Configured(c, opts).value.perN > 0
    decreases |opts|
  {
    if |opts| > 0 && Apply(c, opts[0]).Ok? {
      ConfiguredKeepsPerN(Apply(c, opts[0]).value, opts[1..]);
    }
  }

  /** An estimator from Estimate always has a per-N count, so Run does not
      fail with the process error. */
  lemma EstimatedRuns(opts: seq<Configurator>)
    ensures EstimateOf(opts).Ok? ==> EstimateOf(opts).value.perN > 0
  {
    EstimateDefaults(opts);
    ConfiguredKeepsPerN(Config(false, false, 2, 100), opts);
  }

  /** Run's failures: the process error without a per-N count, then the
      parse error, then missing data when no database was built. */
  lemma RunFailures(c: Config, stmts: seq<Statement>, env: Env)
    ensures c.perN == 0 ==> RunOf(c, stmts, env) == Err(ErrProcess)
    ensures c.perN > 0 && Parser.ParseOf(stmts, env).Err? ==> RunOf(c, stmts, env) == Err(Parser.ParseOf(stmts, env).error)
    ensures c.perN > 0 && Parser.ParseOf(stmts, env) == Ok([]) ==> RunOf(c, stmts, env) == Err(ErrMissing)
    ensures RunOf(c, stmts, env).Ok? ==> c.perN > 0 && Parser.ParseOf(stmts, env).Ok? && |Parser.ParseOf(stmts, env).value| > 0
  {
  }

  /** Every row has six cells. */
  predicate SixCells(rows: seq<Row>)
  {
    forall k :: 0 <= k < |rows| ==> |rows[k]| == 6
  }

  /** Every printed row, data or blank, has the header's six cells. */
  lemma RowsHaveSixCells(ls: seq<Line>, c: Config, env: Env)
    ensures SixCells(Rendered(ls, c, env))
  {
    forall k | 0 <= k < |ls|
      ensures |Rendered(ls, c, env)[k]| == 6
    {
      match ls[k]
      case ItemLine(d) =>
      case TableLine(t) =>
      case DatabaseLine(d) =>
      case BlankLine =>
    }
  }

  /** Not verbose: a table gives its own line only. */
  lemma QuietTableLines(t: Tables.Table, env: Env)
    ensures TableLines(t, false, env) == [TableLine(t)]
  {
  }

  /** Not verbose: one line per table, in order, and nothing else. */
  lemma {:induction false} QuietTablesLines(ts: seq<Tables.Table>, env: Env)
    ensures |TablesLines(ts, false, env)| == |ts|
    ensures forall k {:trigger TablesLines(ts, false, env)[k]} :: 0 <= k < |ts| ==>
      TablesLines(ts, false, env)[k] == TableLine(ts[k])
    decreases |ts|
  {
    if |ts| > 0 {
      var init := ts[..|ts| - 1];
      var last := ts[|ts| - 1];
      var lines := TablesLines(init, false, env);
      QuietTablesLines(init, env);
      QuietTableLines(last, env);
      assert TablesLines(ts, false, env) == lines + [TableLine(last)];
      forall k | 0 <= k < |init|
        ensures TablesLines(ts, false, env)[k] == TableLine(ts[k])
      {
        assert ts[k] == init[k];
      }
    }
  }

  /** Not verbose: the report has one line per table and one per database,
      and each database's line follows its tables' lines. */
  lemma {:induction false} QuietReportLines(dbs: Storages.Storage, env: Env)
    ensures |ReportLines(dbs, false, env)| == RowCount(dbs)
    ensures |dbs| > 0 ==> ReportLines(dbs, false, env)[RowCount(dbs) - 1] == DatabaseLine(dbs[|dbs| - 1])
    decreases |dbs|
  {
    if |dbs| > 0 {
      QuietReportLines(dbs[..|dbs| - 1], env);
      QuietTablesLines(dbs[|dbs| - 1].tables, env);
    }
  }

  /** Not verbose: the report has one row per table and one per database,
      the last one the last database's row. */
  lemma QuietReport(dbs: Storages.Storage, c: Config, env: Env)
    requires !c.verbose
    ensures |Report(dbs, c, env)| == RowCount(dbs)
    ensures |dbs| > 0 ==> Report(dbs, c, env)[RowCount(dbs) - 1] == RowOf(Databases.Item(dbs[|dbs| - 1], env), c)
  {
    QuietReportLines(dbs, env);
  }

  /** The number of tables plus the number of databases. */
  function RowCount(dbs: Storages.Storage): nat
  {
    if |dbs| == 0 then 0 else RowCount(dbs[..|dbs| - 1]) + |dbs[|dbs| - 1].tables| + 1
  }

  /** Verbose: a table's lines are its fields' lines (naming its columns in
      order), its keys' lines, its own line and a blank line. */
  lemma VerboseTableLines(t: Tables.Table, env: Env)
    ensures |TableLines(t, true, env)| == |t.columns| + |Tables.KeysOf(t, env)| + 2
    ensures forall k :: 0 <= k < |t.columns| ==>
      TableLines(t, true, env)[k].ItemLine? && TableLines(t, true, env)[k].item.name == t.columns[k].name
    ensures TableLines(t, true, env)[|t.columns| + |Tables.KeysOf(t, env)|] == TableLine(t)
    ensures TableLines(t, true, env)[|TableLines(t, true, env)| - 1] == BlankLine
  {
  }

  /** Counted per one row, the last two cells repeat the per-row cells. */
  lemma RowPerOne(d: DataItems.Data, c: Config)
    requires c.perN == 1
    ensures RowOf(d, c)[4] == RowOf(d, c)[2] && RowOf(d, c)[5] == RowOf(d, c)[3]
  {
  }

  /** Reading the number back out of an xRow cell gives the count. */
  lemma XRowRoundTrip(i: U64, max: bool)
    ensures |XRow(i, max)| >= 8 && XRow(i, max)[..2] == "X "
    ensures Size.Value(XRow(i, max)[2..|XRow(i, max)| - 6]) == i
    ensures XRow(i, max)[|XRow(i, max)| - 6..] == (if max then " (max)" else " (min)")
  {
    Size.FormatUintDigits(i);
    Size.FormatUintRoundTrip(i);
    var s := XRow(i, max);
    assert s[2..|s| - 6] == Size.FormatUint(i);
  }
}
