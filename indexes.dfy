/** internal/mysql/index.go: a table key over some of its columns. */
module Indexes {
  import opened Uint64
  import opened Strings
  import opened Columns
  import DataItems

  datatype Index = Index(name: string, columns: seq<Column>, primary: bool)

  /** Index.Size: the column sizes accumulated in a loop. */
  method Size(i: Index) returns (r: Range)
    ensures r == Total(i.columns)
  {
    r := Range(0, 0);
    for p := 0 to |i.columns|
      invariant r == Total(i.columns[..p])
    {
      var s := ColumnSize(i.columns[p]);
      assert i.columns[..p + 1] == i.columns[..p] + [i.columns[p]];
      TotalAppend(i.columns[..p], i.columns[p]);
      r := Range(Add(r.min, s.min), Add(r.max, s.max));
    }
    assert i.columns[..|i.columns|] == i.columns;
  }

  /** The names of `cols`, in order. */
  function Names(cols: seq<Column>): (r: seq<string>)
    ensures |r| == |cols|
    ensures forall p :: 0 <= p < |cols| ==> r[p] == cols[p].name
  {
    seq(|cols|, p requires 0 <= p < |cols| => cols[p].name)
  }

  /** Index.Kind: "key(c1, c2, ...)" over the column names, or "" without columns. */
  function Kind(i: Index): string
  {
    if |i.columns| == 0 then "" else "key(" + Join(Names(i.columns), ", ") + ")"
  }

  /** The index as a report item: its name, kind and size. */
  function Item(i: Index): DataItems.Data
  {
    DataItems.Data(i.name, Kind(i), Total(i.columns))
  }

  /** A key without columns is empty and has no kind; a key over one column
      shows that column's name. */
  lemma KindShapes(i: Index)
    ensures |i.columns| == 0 <==> Kind(i) == ""
    ensures |i.columns| == 0 ==> Total(i.columns) == Range(0, 0)
    ensures |i.columns| == 1 ==> Kind(i) == "key(" + i.columns[0].name + ")"
  {
  }

  /** The size of a key depends on its columns only, not on its name or on
      whether it is primary. */
  lemma SizeOnlyFromColumns(a: Index, b: Index)
    requires a.columns == b.columns
    ensures Item(a).size == Item(b).size
  {
  }
}
