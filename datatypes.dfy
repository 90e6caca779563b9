/** internal/mysql/data_type.go: MySQL data type names and the storage a value
    of each type requires, as a (min, max) byte pair, following the MySQL 8.0
    "Data Type Storage Requirements" page. */
module DataTypes {
  import opened Uint64
  import opened Errors
  import opened Strings
  import Charsets

  /** A MySQL data type, by its upper-case name. */
  type DataType = string

  const BIT: DataType := "BIT"
  const TINYINT: DataType := "TINYINT"
  const SMALLINT: DataType := "SMALLINT"
  const MEDIUMINT: DataType := "MEDIUMINT"
  const INT: DataType := "INT"
  const INTEGER: DataType := "INTEGER"
  const BIGINT: DataType := "BIGINT"
  const FLOAT: DataType := "FLOAT"
  const DOUBLE: DataType := "DOUBLE"
  const DECIMAL: DataType := "DECIMAL"
  const NUMERIC: DataType := "NUMERIC"
  const REAL: DataType := "REAL"
  const YEAR: DataType := "YEAR"
  const DATE: DataType := "DATE"
  const TIME: DataType := "TIME"
  const TIMESTAMP: DataType := "TIMESTAMP"
  const DATETIME: DataType := "DATETIME"
  const CHAR: DataType := "CHAR"
  const BINARY: DataType := "BINARY"
  const VARCHAR: DataType := "VARCHAR"
  const VARBINARY: DataType := "VARBINARY"
  const TINYBLOB: DataType := "TINYBLOB"
  const TINYTEXT: DataType := "TINYTEXT"
  const BLOB: DataType := "BLOB"
  /** The source spells the TEXT type "TEST", so a column declared TEXT is unknown. */
  const TEXT: DataType := "TEST"
  const MEDIUMBLOB: DataType := "MEDIUMBLOB"
  const MEDIUMTEXT: DataType := "MEDIUMTEXT"
  const LONGBLOB: DataType := "LONGBLOB"
  const LONGTEXT: DataType := "LONGTEXT"
  const JSON: DataType := "JSON"
  const ENUM: DataType := "ENUM"
  const SET: DataType := "SET"

  /** Every name that Size has a case for. */
  const KNOWN: set<DataType> := {
    BIT, TINYINT, SMALLINT, MEDIUMINT, INT, INTEGER, BIGINT, FLOAT, DOUBLE,
    DECIMAL, NUMERIC, REAL, YEAR, DATE, TIME, TIMESTAMP, DATETIME, CHAR,
    BINARY, VARCHAR, VARBINARY, TINYBLOB, TINYTEXT, BLOB, TEXT, MEDIUMBLOB,
    MEDIUMTEXT, LONGBLOB, LONGTEXT, JSON, ENUM, SET
  }

  /** Types whose storage does not depend on the row: min and max agree. */
  const FIXED: set<DataType> := {
    BIT, BINARY, CHAR, TINYINT, YEAR, SMALLINT, MEDIUMINT, DATE, INT, INTEGER,
    BIGINT, FLOAT, DOUBLE, REAL, TIME, TIMESTAMP, DATETIME, ENUM, SET
  }

  /** NewDataType: the type named by `s`, whatever its case. */
  function NewDataType(s: string): (d: DataType)
    ensures |d| == |s|
    ensures forall i :: 0 <= i < |s| ==> d[i] == UpperChar(s[i])
  {
    Upper(s)
  }

  /** Type names are matched without regard to case. */
  lemma NewDataTypeIgnoresCase(s: string, t: string)
    requires EqualFold(s, t)
    ensures NewDataType(s) == NewDataType(t)
  {
    EqualFoldSameUpper(s, t);
  }

  // ---------------------------------------------------------------------
  // Helpers of Size

  /** `bytes`: `size` characters of `charset`, or 0 for an unlisted charset. */
  function Bytes(size: U64, charset: string): (r: U64)
    ensures charset !in Charsets.WIDTHS ==> r == 0
    ensures charset in Charsets.WIDTHS ==> r == Mul(size, Charsets.WIDTHS[charset])
  {
    match Charsets.Width(charset)
    case None => 0
    case Some(w) =>
      Charsets.WidthsInRange(charset);
      Mul(size, w)
  }

  /** `blob`: `reserved` length bytes, plus the data, or plus the largest
      length the type admits (`cap` - 1) when no length is known. */
  function Blob(size: U64, reserved: U64, cap: U64): (r: Range)
    requires 1 <= cap && cap - 1 + reserved < MODULUS
    ensures r.min == reserved
    ensures size > 0 ==> r.max == Add(size, reserved)
    ensures size == 0 ==> r.max == cap - 1 + reserved
  {
    if size > 0 then Range(reserved, Add(size, reserved)) else Range(reserved, cap - 1 + reserved)
  }

  /** `enum`: one byte for up to 255 members, two above. */
  function Enum(size: U64): (r: Range)
    ensures r.min == r.max && 1 <= r.min <= 2
    ensures r.min == 1 <==> size <= MAX_U8
  {
    if size > MAX_U8 then Both(2) else Both(1)
  }

  /** `float`: single precision up to 24 bits, double above. */
  function Float(size: U64): (r: Range)
    ensures r.min == r.max && (r.min == 4 || r.min == 8)
    ensures r.min == 4 <==> size <= 24
  {
    if size > 24 then Both(8) else Both(4)
  }

  /** `fsp`: bytes for the fractional seconds precision `size`. */
  function Fsp(size: U64): (r: U64)
    ensures r <= 3
    ensures r == 0 <==> size == 0
  {
    if size > 4 then 3
    else if size > 2 then 2
    else if size > 0 then 1
    else 0
  }

  /** `set`: one bit per member rounded up to bytes, at least 1 and at most 8. */
  function SetSize(size: U64): (r: Range)
    ensures r.min == r.max && 1 <= r.min <= 8
  {
    if size > 64 then Both(8)
    else if size == 0 then Both(1)
    else Both((size + 7) / 8)
  }

  /** `variable`: one length byte up to 255 bytes of data, two above; an
      unknown length (0) is sized as the 255-byte maximum. */
  function Variable(size: U64): (r: Range)
    ensures r.min == (if size > MAX_U8 then 2 else 1)
  {
    if size > MAX_U8 then Range(2, Add(size, 2))
    else if size == 0 then Range(1, MAX_U8)
    else Range(1, size + 1)
  }

  // ---------------------------------------------------------------------
  // Size

  /** DataType.Size: the bytes a value of type `d` takes, declared with
      length `size` in `charset`; (0, 2^64-1) for an unknown type. */
  function Size(d: DataType, size: U64, charset: string): Range
  {
    if d == BIT then Both(Add(size, 7) / 8)
    else if d == BINARY || d == CHAR then Both(size)
    else if d == TINYINT || d == YEAR then Both(1)
    else if d == SMALLINT then Both(2)
    else if d == MEDIUMINT || d == DATE then Both(3)
    else if d == INT || d == INTEGER then Both(4)
    else if d == BIGINT then Both(8)
    else if d == FLOAT then Float(size)
    else if d == DOUBLE || d == REAL then Both(8)
    else if d == DECIMAL || d == NUMERIC then Range(4, 8)
    else if d == TIME then Both(3 + Fsp(size))
    else if d == TIMESTAMP then Both(4 + Fsp(size))
    else if d == DATETIME then Both(5 + Fsp(size))
    else if d == VARCHAR then Variable(Bytes(size, charset))
    else if d == VARBINARY then Variable(size)
    else if d == TINYBLOB || d == TINYTEXT then Blob(Bytes(size, charset), 1, MAX_U8)
    else if d == BLOB || d == TEXT then Blob(Bytes(size, charset), 2, MAX_U16)
    else if d == MEDIUMBLOB || d == MEDIUMTEXT then Blob(Bytes(size, charset), 3, 16777216)
    else if d == LONGBLOB || d == LONGTEXT || d == JSON then Blob(Bytes(size, charset), 4, MAX_U32)
    else if d == ENUM then Enum(size)
    else if d == SET then SetSize(size)
    else Range(0, MAX_U64)
  }

  // ---------------------------------------------------------------------
  // Properties

  /** Integer, date and fixed-length string types have one size. */
  lemma FixedWidths(size: U64, cs: string)
    ensures Size(TINYINT, size, cs) == Both(1) && Size(YEAR, size, cs) == Both(1)
    ensures Size(SMALLINT, size, cs) == Both(2)
    ensures Size(MEDIUMINT, size, cs) == Both(3) && Size(DATE, size, cs) == Both(3)
    ensures Size(INT, size, cs) == Both(4) && Size(INTEGER, size, cs) == Both(4)
    ensures Size(BIGINT, size, cs) == Both(8) && Size(DOUBLE, size, cs) == Both(8)
    ensures Size(REAL, size, cs) == Both(8)
    ensures Size(CHAR, size, cs) == Both(size) && Size(BINARY, size, cs) == Both(size)
    ensures size < MODULUS - 7 ==> Size(BIT, size, cs) == Both((size + 7) / 8)
  {
  }

  /** Every fixed-width type reports min == max, whatever its length and charset. */
  lemma FixedMinEqualsMax(d: DataType, size: U64, cs: string)
    requires d in FIXED
    ensures Size(d, size, cs).min == Size(d, size, cs).max
  {
  }

  /** FLOAT is 4 bytes up to 24 bits of precision and 8 above; DECIMAL and
      NUMERIC are always sized (4, 8). */
  lemma FloatAndDecimal(size: U64, cs: string)
    ensures Size(FLOAT, size, cs) == Both(if size <= 24 then 4 else 8)
    ensures Size(DECIMAL, size, cs) == Range(4, 8) && Size(NUMERIC, size, cs) == Range(4, 8)
  {
  }

  /** TIME, TIMESTAMP and DATETIME add the fractional-seconds bytes to a base of 3, 4, 5. */
  lemma Temporal(size: U64, cs: string)
    ensures Size(TIME, size, cs) == Both(3 + Fsp(size))
    ensures Size(TIMESTAMP, size, cs) == Both(4 + Fsp(size))
    ensures Size(DATETIME, size, cs) == Both(5 + Fsp(size))
    ensures 3 <= Size(TIME, size, cs).min <= 6
  {
  }

  /** Fractional-seconds bytes never decrease with precision, and step up
      exactly at precisions 1, 3 and 5. */
  lemma FspMonotone(a: U64, b: U64)
    requires a <= b
    ensures Fsp(a) <= Fsp(b)
    ensures Fsp(b) == (if b >= 5 then 3 else if b >= 3 then 2 else if b >= 1 then 1 else 0)
  {
  }

  /** The (min, max) of a variable-length value are ordered exactly when its
      length does not overflow the two length bytes added to it. */
  lemma VariableOrdered(n: U64)
    ensures Variable(n).min <= Variable(n).max <==> n < MODULUS - 2
    ensures n == 0 ==> Variable(n) == Range(1, 255)
    ensures 0 < n <= 255 ==> Variable(n) == Range(1, n + 1)
    ensures 255 < n < MODULUS - 2 ==> Variable(n) == Range(2, n + 2)
  {
  }

  /** VARCHAR is sized by its length in bytes (characters times the charset
      width); VARBINARY by its length. */
  lemma VarSizes(n: U64, cs: string)
    requires cs in Charsets.WIDTHS && n * Charsets.WIDTHS[cs] < MODULUS
    ensures Size(VARCHAR, n, cs) == Variable(n * Charsets.WIDTHS[cs])
    ensures Size(VARBINARY, n, cs) == Variable(n)
  {
  }

  /** With a charset the table does not list, a VARCHAR of any length is sized
      like one of unknown length. */
  lemma VarCharUnknownCharset(n: U64, cs: string)
    requires cs !in Charsets.WIDTHS
    ensures Size(VARCHAR, n, cs) == Range(1, 255)
  {
  }

  /** A longer VARCHAR never takes less room. */
  lemma VarCharMonotone(a: U64, b: U64, cs: string)
    requires a <= b && cs in Charsets.WIDTHS && b * Charsets.WIDTHS[cs] < MODULUS - 2
    requires a > 0
    ensures Size(VARCHAR, a, cs).max <= Size(VARCHAR, b, cs).max
  {
    var w := Charsets.WIDTHS[cs];
    Charsets.WidthsInRange(cs);
    assert a * w <= b * w;
  }

  /** The blob and text families with no declared length: 1 to 4 length
      bytes plus the family's largest length. JSON is sized as a long blob. */
  lemma BlobsWithoutLength(n: U64, cs: string)
    requires n == 0
    ensures Size(TINYBLOB, n, cs) == Range(1, 255) && Size(TINYTEXT, n, cs) == Range(1, 255)
    ensures Size(BLOB, n, cs) == Range(2, 65536) && Size(TEXT, n, cs) == Range(2, 65536)
    ensures Size(MEDIUMBLOB, n, cs) == Range(3, 16777218) && Size(MEDIUMTEXT, n, cs) == Range(3, 16777218)
    ensures Size(LONGBLOB, n, cs) == Range(4, 4294967298) && Size(LONGTEXT, n, cs) == Range(4, 4294967298)
    ensures Size(JSON, n, cs) == Range(4, 4294967298)
  {
    SmallBlobsWithoutLength(n, cs);
    LargeBlobsWithoutLength(n, cs);
  }

  lemma SmallBlobsWithoutLength(n: U64, cs: string)
    requires n == 0
    ensures Size(TINYBLOB, n, cs) == Range(1, 255) && Size(TINYTEXT, n, cs) == Range(1, 255)
    ensures Size(BLOB, n, cs) == Range(2, 65536) && Size(TEXT, n, cs) == Range(2, 65536)
  {
    BytesOfNothing(n, cs);
  }

  lemma LargeBlobsWithoutLength(n: U64, cs: string)
    requires n == 0
    ensures Size(MEDIUMBLOB, n, cs) == Range(3, 16777218) && Size(MEDIUMTEXT, n, cs) == Range(3, 16777218)
    ensures Size(LONGBLOB, n, cs) == Range(4, 4294967298) && Size(LONGTEXT, n, cs) == Range(4, 4294967298)
    ensures Size(JSON, n, cs) == Range(4, 4294967298)
  {
    BytesOfNothing(n, cs);
    assert Size(MEDIUMBLOB, n, cs) == Range(3, 16777218) && Size(MEDIUMTEXT, n, cs) == Range(3, 16777218);
    LongBlobsWithoutLength(n, cs);
  }

  lemma LongBlobsWithoutLength(n: U64, cs: string)
    requires n == 0 && Bytes(n, cs) == 0
    ensures Size(LONGBLOB, n, cs) == Range(4, 4294967298) && Size(LONGTEXT, n, cs) == Range(4, 4294967298)
    ensures Size(JSON, n, cs) == Range(4, 4294967298)
  {
    assert Size(LONGBLOB, n, cs) == Range(4, 4294967298);
    assert Size(LONGTEXT, n, cs) == Range(4, 4294967298);
  }

  lemma BytesOfNothing(n: U64, cs: string)
    requires n == 0
    ensures Bytes(n, cs) == 0
  {
    match Charsets.Width(cs)
    case None =>
    case Some(w) => assert Mul(n, w) == 0;
  }

  /** With a declared length in a listed charset, a blob or text takes its
      length in bytes plus 1 to 4 length bytes. */
  lemma BlobsWithLength(n: U64, cs: string)
    requires n > 0 && cs in Charsets.WIDTHS && n * Charsets.WIDTHS[cs] + 4 < MODULUS
    ensures Size(TINYBLOB, n, cs) == Range(1, n * Charsets.WIDTHS[cs] + 1)
    ensures Size(TINYTEXT, n, cs) == Range(1, n * Charsets.WIDTHS[cs] + 1)
    ensures Size(BLOB, n, cs) == Range(2, n * Charsets.WIDTHS[cs] + 2)
    ensures Size(TEXT, n, cs) == Range(2, n * Charsets.WIDTHS[cs] + 2)
    ensures Size(MEDIUMBLOB, n, cs) == Range(3, n * Charsets.WIDTHS[cs] + 3)
    ensures Size(MEDIUMTEXT, n, cs) == Range(3, n * Charsets.WIDTHS[cs] + 3)
    ensures Size(LONGBLOB, n, cs) == Range(4, n * Charsets.WIDTHS[cs] + 4)
    ensures Size(LONGTEXT, n, cs) == Range(4, n * Charsets.WIDTHS[cs] + 4)
    ensures Size(JSON, n, cs) == Range(4, n * Charsets.WIDTHS[cs] + 4)
  {
    var w := Charsets.WIDTHS[cs];
    Charsets.WidthsInRange(cs);
    var b := n * w;
    assert b >= n by { MulMonotone(n, 1, w); }
    assert Bytes(n, cs) == b;
    BlobsWithBytes(n, cs);
  }

  /** Whenever the length in bytes is not zero, every blob and text type
      takes exactly that many bytes plus its length bytes, wrapping at 2^64. */
  lemma BlobsWithBytes(n: U64, cs: string)
    requires Bytes(n, cs) > 0
    ensures Size(TINYBLOB, n, cs) == Range(1, Add(Bytes(n, cs), 1))
    ensures Size(TINYTEXT, n, cs) == Range(1, Add(Bytes(n, cs), 1))
    ensures Size(BLOB, n, cs) == Range(2, Add(Bytes(n, cs), 2))
    ensures Size(TEXT, n, cs) == Range(2, Add(Bytes(n, cs), 2))
    ensures Size(MEDIUMBLOB, n, cs) == Range(3, Add(Bytes(n, cs), 3))
    ensures Size(MEDIUMTEXT, n, cs) == Range(3, Add(Bytes(n, cs), 3))
    ensures Size(LONGBLOB, n, cs) == Range(4, Add(Bytes(n, cs), 4))
    ensures Size(LONGTEXT, n, cs) == Range(4, Add(Bytes(n, cs), 4))
    ensures Size(JSON, n, cs) == Range(4, Add(Bytes(n, cs), 4))
  {
    SmallBlobsWithBytes(n, cs);
    LargeBlobsWithBytes(n, cs);
  }

  lemma SmallBlobsWithBytes(n: U64, cs: string)
    requires Bytes(n, cs) > 0
    ensures Size(TINYBLOB, n, cs) == Range(1, Add(Bytes(n, cs), 1))
    ensures Size(TINYTEXT, n, cs) == Range(1, Add(Bytes(n, cs), 1))
    ensures Size(BLOB, n, cs) == Range(2, Add(Bytes(n, cs), 2))
    ensures Size(TEXT, n, cs) == Range(2, Add(Bytes(n, cs), 2))
  {
    var b := Bytes(n, cs);
    assert Blob(b, 1, MAX_U8) == Range(1, Add(b, 1));
    assert Blob(b, 2, MAX_U16) == Range(2, Add(b, 2));
  }

  lemma LargeBlobsWithBytes(n: U64, cs: string)
    requires Bytes(n, cs) > 0
    ensures Size(MEDIUMBLOB, n, cs) == Range(3, Add(Bytes(n, cs), 3))
    ensures Size(MEDIUMTEXT, n, cs) == Range(3, Add(Bytes(n, cs), 3))
    ensures Size(LONGBLOB, n, cs) == Range(4, Add(Bytes(n, cs), 4))
    ensures Size(LONGTEXT, n, cs) == Range(4, Add(Bytes(n, cs), 4))
    ensures Size(JSON, n, cs) == Range(4, Add(Bytes(n, cs), 4))
  {
    var b := Bytes(n, cs);
    assert Blob(b, 3, 16777216) == Range(3, Add(b, 3));
    LongBlobsWithBytes(n, cs);
  }

  lemma LongBlobsWithBytes(n: U64, cs: string)
    requires Bytes(n, cs) > 0
    ensures Size(LONGBLOB, n, cs) == Range(4, Add(Bytes(n, cs), 4))
    ensures Size(LONGTEXT, n, cs) == Range(4, Add(Bytes(n, cs), 4))
    ensures Size(JSON, n, cs) == Range(4, Add(Bytes(n, cs), 4))
  {
    var b := Bytes(n, cs);
    assert Blob(b, 4, MAX_U32) == Range(4, Add(b, 4));
  }

  /** ENUM needs a second byte beyond 255 members; SET one bit per member, from 1 to 8 bytes. */
  lemma EnumAndSet(n: U64, cs: string)
    ensures Size(ENUM, n, cs) == Both(if n <= 255 then 1 else 2)
    ensures Size(SET, n, cs).min == Size(SET, n, cs).max
    ensures 1 <= Size(SET, n, cs).min <= 8
    ensures 0 < n <= 64 ==> Size(SET, n, cs) == Both((n + 7) / 8)
  {
  }

  /** Every type the sizer does not know is sized from 0 to 2^64-1 bytes. */
  lemma UnknownType(d: DataType, n: U64, cs: string)
    requires d !in KNOWN
    ensures Size(d, n, cs) == Range(0, MAX_U64)
  {
  }

  /** A column declared TEXT is not recognised, because the TEXT constant is
      spelled "TEST": it gets the unknown-type size. */
  lemma TextIsUnknown(n: U64, cs: string)
    ensures Size(NewDataType("text"), n, cs) == Range(0, MAX_U64)
    ensures Size("TEXT", n, cs) == Range(0, MAX_U64)
  {
    assert NewDataType("text") == "TEXT";
    assert "TEXT"[2] == 'X';
    assert "TEXT" !in KNOWN;
    UnknownType("TEXT", n, cs);
  }
}
