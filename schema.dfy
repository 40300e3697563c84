/** The zod schema primitives the three forms are built from, as predicates
    over the raw field values (`undefined` is `None`). */
module Schema {
  import opened JsBuiltins
  import opened Types

  /** What `safeParse` yields: the parsed value, or the paths of the fields
      that carry an issue, in the order the schema reports them. */
  datatype Parsed<T> = Accepted(value: T) | Rejected(paths: seq<string>)

  /** `z.enum(['keyword', 'latest'])`. */
  function ParseSortMode(s: string): (r: Option<SortMode>)
    ensures r == Some(Keyword) <==> s == "keyword"
    ensures r == Some(Latest) <==> s == "latest"
    ensures r.None? <==> s != "keyword" && s != "latest"
  {
    if s == "keyword" then Some(Keyword)
    else if s == "latest" then Some(Latest)
    else None
  }

  /** `z.string().min(1)`: present, and at least one character long. */
  predicate FilledIn(v: Option<string>)
  {
    v.Some? && |v.value| >= 1
  }

  /** `!v` for an optional string: absent or empty. */
  predicate Falsy(v: Option<string>)
  {
    v.None? || v.value == ""
  }

  /** `z.number().min(lo).max(hi).optional()`: absent, or within `lo..hi`. */
  predicate OptionalInRange(v: Option<int>, lo: int, hi: int)
  {
    v.None? || lo <= v.value <= hi
  }

  /** The refine shared by the search and automation forms: keyword mode
      needs a keyword. */
  predicate KeywordRule(mode: SortMode, keyword: Option<string>)
  {
    !(mode == Keyword && Falsy(keyword))
  }
}
