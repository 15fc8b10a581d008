/** src/query_builders.rs: the two builders that pair a query string with its language. */
module QueryBuilders {
  import opened Types

  /** `css(query)`: the string kept verbatim, stamped as a CSS query. */
  function Css(query: string): (c: QueryConfig)
    ensures c.query == query
    ensures c.queryType == CSS
  {
    QueryConfig(query, CSS)
  }

  /** `xpath(query)`: the string kept verbatim, stamped as an XPath query. */
  function Xpath(query: string): (c: QueryConfig)
    ensures c.query == query
    ensures c.queryType == XPath
  {
    QueryConfig(query, XPath)
  }

  /** The two builders agree on the query and differ only in its kind, numbered 0 and 1. */
  lemma BuildersDifferOnlyInKind(query: string)
    ensures Css(query) != Xpath(query)
    ensures Css(query) == Xpath(query).(queryType := CSS)
    ensures Discriminant(Css(query).queryType) == 0 && Discriminant(Xpath(query).queryType) == 1
  {
  }
}
