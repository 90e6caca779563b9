/** internal/mysql/column.go: a table column and what it reports. */
module Columns {
  import opened Uint64
  import opened Strings
  import DataTypes
  import Size
  import opened Externals
  import opened DataItems

  datatype Column = Column(
    name: string,
    charset: string,
    dataSize: U64,
    dataType: DataTypes.DataType,
    notNull: bool)

  /** Column.Size: the storage of the column's type, length and charset. */
  function ColumnSize(c: Column): Range
  {
    DataTypes.Size(c.dataType, c.dataSize, c.charset)
  }

  /** The parts shown between parentheses in a column's kind: the length
      when there is one, then the charset of a string type. */
  function KindParts(c: Column, env: Env): seq<string>
  {
    (if c.dataSize > 0 then [Size.FormatUint(c.dataSize)] else [])
      + (if env.isString(c.dataType) then [c.charset] else [])
  }

  /** Column.Kind: the type name, with its length and charset for types
      that are not integers. */
  function Kind(c: Column, env: Env): string
  {
    if env.isInt(c.dataType) then c.dataType
    else
      var s := Join(KindParts(c, env), ", ");
      if s != "" then c.dataType + "(" + s + ")" else c.dataType
  }

  /** The column as a report item. */
  function Field(c: Column, env: Env): Data
  {
    Data(c.name, Kind(c, env), ColumnSize(c))
  }

  /** Every shape a column's kind takes: integers show the bare type; other
      types show the length if any, then the charset if a string type, and
      the bare type when there is nothing to show. */
  lemma KindShapes(c: Column, env: Env)
    ensures env.isInt(c.dataType) ==> Kind(c, env) == c.dataType
    ensures !env.isInt(c.dataType) && c.dataSize > 0 && !env.isString(c.dataType) ==>
      Kind(c, env) == c.dataType + "(" + Size.FormatUint(c.dataSize) + ")"
    ensures !env.isInt(c.dataType) && c.dataSize > 0 && env.isString(c.dataType) ==>
      Kind(c, env) == c.dataType + "(" + Size.FormatUint(c.dataSize) + ", " + c.charset + ")"
    ensures !env.isInt(c.dataType) && c.dataSize == 0 && env.isString(c.dataType) ==>
      Kind(c, env) == if c.charset == "" then c.dataType else c.dataType + "(" + c.charset + ")"
    ensures !env.isInt(c.dataType) && c.dataSize == 0 && !env.isString(c.dataType) ==>
      Kind(c, env) == c.dataType
  {
    if !env.isInt(c.dataType) && c.dataSize > 0 {
      Size.FormatUintDigits(c.dataSize);
      var parts := KindParts(c, env);
      if env.isString(c.dataType) {
        var d := Size.FormatUint(c.dataSize);
        assert parts == [d, c.charset];
        assert parts[1..] == [c.charset];
        assert Join(parts, ", ") == d + ", " + c.charset;
      } else {
        assert parts == [Size.FormatUint(c.dataSize)];
      }
    } else if !env.isInt(c.dataType) && env.isString(c.dataType) {
      assert KindParts(c, env) == [c.charset];
    } else if !env.isInt(c.dataType) {
      assert KindParts(c, env) == [];
    }
  }

  // ---------------------------------------------------------------------
  // Sums over columns

  /** The size of every column, in order. */
  function Sizes(cols: seq<Column>): (r: seq<Range>)
    ensures |r| == |cols|
    ensures forall i :: 0 <= i < |cols| ==> r[i] == ColumnSize(cols[i])
  {
    seq(|cols|, i requires 0 <= i < |cols| => ColumnSize(cols[i]))
  }

  /** The column sizes added up in order, wrapping like uint64. */
  function Total(cols: seq<Column>): Range
  {
    Sum(Sizes(cols))
  }

  /** Adding one more column adds its size. */
  lemma TotalAppend(cols: seq<Column>, c: Column)
    ensures Total(cols + [c]) == Plus(Total(cols), ColumnSize(c))
  {
    assert Sizes(cols + [c]) == Sizes(cols) + [ColumnSize(c)];
    SumAppend(Sizes(cols), ColumnSize(c));
  }
}
