/** internal/mysql/row_format.go: the row format of a table, kept as the
    lower-cased name given in the table options. */
module RowFormats {
  import opened Strings

  type RowFormat = string

  const UNKNOWN: RowFormat := ""
  const COMPACT: RowFormat := "compact"
  const COMPRESSED: RowFormat := "compressed"
  const DYNAMIC: RowFormat := "dynamic"
  const REDUNDANT: RowFormat := "redundant"
  const STATIC: RowFormat := "static"

  /** ToRowFormat: the format named by `s`, whatever its case. */
  function ToRowFormat(s: string): (f: RowFormat)
    ensures |f| == |s|
    ensures forall i :: 0 <= i < |s| ==> f[i] == LowerChar(s[i])
  {
    Lower(s)
  }

  /** Converting a format again changes nothing. */
  lemma {:induction false} ToRowFormatIdempotent(s: string)
    ensures ToRowFormat(ToRowFormat(s)) == ToRowFormat(s)
  {
    var f := ToRowFormat(s);
    assert forall i :: 0 <= i < |f| ==> LowerChar(f[i]) == f[i];
  }

  /** A name equal up to case to a lower-case name converts to that name. */
  lemma FoldsTo(s: string, t: string)
    requires EqualFold(s, t)
    requires forall i :: 0 <= i < |t| ==> LowerChar(t[i]) == t[i]
    ensures ToRowFormat(s) == t
  {
  }

  /** The empty name is the unknown format, and any casing of a known name
      gives that format. */
  lemma KnownFormats(s: string)
    ensures s == "" ==> ToRowFormat(s) == UNKNOWN
    ensures EqualFold(s, COMPRESSED) ==> ToRowFormat(s) == COMPRESSED
    ensures EqualFold(s, DYNAMIC) ==> ToRowFormat(s) == DYNAMIC
    ensures EqualFold(s, STATIC) ==> ToRowFormat(s) == STATIC
  {
    if EqualFold(s, COMPRESSED) {
      FoldsTo(s, COMPRESSED);
    }
    if EqualFold(s, DYNAMIC) {
      FoldsTo(s, DYNAMIC);
    }
    if EqualFold(s, STATIC) {
      FoldsTo(s, STATIC);
    }
  }
}
