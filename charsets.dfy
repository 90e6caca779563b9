/** internal/mysql/charset.go: the bytes a character takes in each MySQL
    character set, and the set used when none is given. */
module Charsets {
  import opened Errors

  /** The charset used when neither the column nor the database names one. */
  const DEFAULT_CHARSET: string := "utf8mb4"

  /** Bytes per character: every listed charset takes 1 to 4. */
  type CharWidth = w: nat | 1 <= w <= 4 witness 1

  /** The largest number of bytes one character takes, per charset name. */
  const WIDTHS: map<string, CharWidth> := map[
    "armscii8" := 1, "ascii" := 1, "big5" := 2, "binary" := 1,
    "cp1250" := 1, "cp1251" := 1, "cp1256" := 1, "cp1257" := 1,
    "cp850" := 1, "cp852" := 1, "cp866" := 1, "cp932" := 2,
    "dec8" := 1, "eucjpms" := 3, "euckr" := 2, "gb18030" := 4,
    "gb2312" := 2, "gbk" := 2, "geostd8" := 1, "greek" := 1,
    "hebrew" := 1, "hp8" := 1, "keybcs2" := 1, "koi8r" := 1,
    "koi8u" := 1, "latin1" := 1, "latin2" := 1, "latin5" := 1,
    "latin7" := 1, "macce" := 1, "macroman" := 1, "sjis" := 2,
    "swe7" := 1, "tis620" := 1, "ucs2" := 2, "ujis" := 3,
    "utf16" := 4, "utf16le" := 4, "utf32" := 4, "utf8" := 3,
    "utf8mb4" := 4
  ]

  /** The lookup `charsets[name]`: a width exactly for the listed names,
      compared as written (no case folding). */
  function Width(name: string): (r: Option<nat>)
    ensures r.Some? <==> name in WIDTHS
    ensures r.Some? ==> r.value == WIDTHS[name]
  {
    if name in WIDTHS then Some(WIDTHS[name]) else None
  }

  /** Every known charset takes between 1 and 4 bytes per character. */
  lemma WidthsInRange(name: string)
    ensures Width(name).Some? ==> 1 <= Width(name).value <= 4
  {
  }

  /** The default charset is listed, with 4 bytes per character. */
  lemma DefaultWidth()
    ensures Width(DEFAULT_CHARSET) == Some(4)
  {
  }

  /** Widths the estimator relies on most. */
  lemma SampleWidths()
    ensures Width("latin1") == Some(1) && Width("ascii") == Some(1) && Width("binary") == Some(1)
    ensures Width("ucs2") == Some(2) && Width("utf8") == Some(3)
    ensures Width("utf16") == Some(4) && Width("utf32") == Some(4)
  {
  }
}
