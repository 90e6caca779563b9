/** pkg/ds/data.go: what the report shows of any sized item (the ds.Data
    interface): its name (String), its kind and its (min, max) size. */
module DataItems {
  import opened Uint64

  datatype Data = Data(name: string, kind: string, size: Range)

  /** ds.NewDataSize: the same item reported with another size. */
  function NewDataSize(d: Data, min: U64, max: U64): (r: Data)
    ensures r.name == d.name && r.kind == d.kind && r.size == Range(min, max)
  {
    d.(size := Range(min, max))
  }

  /** The size of every item, in order. */
  function Sizes(items: seq<Data>): (r: seq<Range>)
    ensures |r| == |items|
    ensures forall i :: 0 <= i < |items| ==> r[i] == items[i].size
  {
    seq(|items|, i requires 0 <= i < |items| => items[i].size)
  }

  /** The sizes of `items` added up in order, wrapping like uint64. */
  function Total(items: seq<Data>): Range
  {
    Sum(Sizes(items))
  }

  /** Adding one more item adds its size. */
  lemma TotalAppend(items: seq<Data>, d: Data)
    ensures Total(items + [d]) == Plus(Total(items), d.size)
  {
    assert Sizes(items + [d]) == Sizes(items) + [d.size];
    SumAppend(Sizes(items), d.size);
  }
}
