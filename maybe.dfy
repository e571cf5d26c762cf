/** Optional values: Python's `None` as `None`, anything else as `Some`. */
module Maybe {

  datatype Option<+T> = None | Some(value: T)

  /** A string-valued request field read with `(body.get(key) or "")`. */
  function OrEmpty(s: Option<string>): (r: string)
    ensures r == [] <==> s.None? || s.value == []
    ensures r != [] ==> s == Some(r)
    ensures s.Some? ==> r == s.value
  {
    match s
    case None => []
    case Some(v) => v
  }
}
