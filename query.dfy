// The N1QL statement every service's Filter sends (the statement is not run here).
module Query {
  import opened Wrappers
  import opened Numeric
  import opened GoStrings

  /** The part of a statement before its limit clause. */
  function Head(base: string, queryString: string, sortBy: string): string
  {
    base + queryString + " order by " + sortBy
  }

  /** The reader's side: the number after " limit ", if the statement has one. */
  function LimitOf(query: string, head: string): Option<Option<Int64>>
  {
    if query == head then Some(None)
    else if HasPrefix(query, head + " limit ") then
      match Atoi(query[|head| + 7..])
      case Some(n) => Some(Some(n))
      case None => None
    else None
  }

  /** A limit clause appended to a head is read back as that limit. */
  lemma LimitClauseReadBack(head: string, limit: Int64)
    ensures var query := head + " limit " + Itoa(limit);
      HasPrefix(query, head) && query != head && LimitOf(query, head) == Some(Some(limit))
  {
    var query := head + " limit " + Itoa(limit);
    ItoaRoundTrip(limit);
    assert query[..|head|] == head;
    assert query[..|head + " limit "|] == head + " limit ";
    assert query[|head| + 7..] == Itoa(limit);
  }

  /**
   * Filter's query construction: the fixed base, the caller's conditions,
   * the ordering, and " limit N" unless the limit is -1.
   */
  method Build(base: string, queryString: string, sortBy: string, limit: Int64) returns (query: string)
    ensures HasPrefix(query, Head(base, queryString, sortBy))
    ensures query == Head(base, queryString, sortBy) <==> limit == -1
    ensures LimitOf(query, Head(base, queryString, sortBy)) == Some(if limit == -1 then None else Some(limit))
  {
    query := base;
    query := query + queryString;
    query := query + " order by " + sortBy;
    assert query == Head(base, queryString, sortBy);
    if limit != -1 {
      LimitClauseReadBack(query, limit);
      query := query + " limit " + Itoa(limit);
    }
  }
}
