/** internal/mysql/database.go: a database and its size, the sum of its tables. */
module Databases {
  import opened Uint64
  import opened Externals
  import Tables
  import DataItems

  datatype Database = Database(name: string, charset: string, tables: seq<Tables.Table>)

  /** Database.Kind */
  const KIND: string := "database"

  /** The size of every table, in order. */
  function TableSizes(tables: seq<Tables.Table>, env: Env): (r: seq<Range>)
    ensures |r| == |tables|
    ensures forall p :: 0 <= p < |tables| ==> r[p] == Tables.SizeOf(tables[p], env)
  {
    seq(|tables|, p requires 0 <= p < |tables| => Tables.SizeOf(tables[p], env))
  }

  /** The table sizes accumulated in order, wrapping like uint64. */
  function SizeOf(d: Database, env: Env): Range
  {
    Sum(TableSizes(d.tables, env))
  }

  /** Database.Size: the loop over the tables. */
  method Size(d: Database, env: Env) returns (r: Range)
    ensures r == SizeOf(d, env)
  {
    ghost var sizes := TableSizes(d.tables, env);
    r := Range(0, 0);
    for p := 0 to |d.tables|
      invariant r == Sum(sizes[..p])
    {
      var s := Tables.Size(d.tables[p], env);
      SumPrefixStep(sizes, p);
      r := Range(Add(r.min, s.min), Add(r.max, s.max));
    }
    assert sizes[..|d.tables|] == sizes;
  }

  /** A database without tables takes nothing, and one more table adds
      exactly that table's size. */
  lemma SizeGrowsByTable(d: Database, t: Tables.Table, env: Env)
    ensures |d.tables| == 0 ==> SizeOf(d, env) == Range(0, 0)
    ensures SizeOf(d.(tables := d.tables + [t]), env) == Plus(SizeOf(d, env), Tables.SizeOf(t, env))
  {
    assert TableSizes(d.tables + [t], env) == TableSizes(d.tables, env) + [Tables.SizeOf(t, env)];
    SumAppend(TableSizes(d.tables, env), Tables.SizeOf(t, env));
  }

  /** The database as a report item. */
  function Item(d: Database, env: Env): DataItems.Data
  {
    DataItems.Data(d.name, KIND, SizeOf(d, env))
  }
}
