/**
 * src/types.rs, `impl HtmlElement`: `select_first` and `select_many` on an
 * element handle. Each re-parses the handle's `outerHtml` (as a fragment for
 * CSS, with `sxd_html` for XPath) and hands the query to the engine of its kind.
 */
module ElementSelect {
  import opened Wrappers
  import opened Dom
  import opened Types
  import opened Engines

  function SelectFirst<Sel>(lib: Libraries<Sel>, e: HtmlElement, options: SelectFirstOptions): (r: Option<HtmlElement>)
    ensures options.query.queryType == CSS ==>
      r == SelectFirstByCss(lib, lib.parseFragment(e.outerHtml), options.query.query)
    ensures options.query.queryType == XPath ==>
      r == SelectFirstByXPath(lib, lib.parseHtml(e.outerHtml), options.query.query)
  {
    match options.query.queryType
    case CSS => SelectFirstByCss(lib, lib.parseFragment(e.outerHtml), options.query.query)
    case XPath => SelectFirstByXPath(lib, lib.parseHtml(e.outerHtml), options.query.query)
  }

  function SelectMany<Sel>(lib: Libraries<Sel>, e: HtmlElement, options: SelectManyOptions): (r: seq<HtmlElement>)
    ensures options.query.queryType == CSS ==>
      r == SelectManyByCss(lib, lib.parseFragment(e.outerHtml), options.query.query, options.limit)
    ensures options.query.queryType == XPath ==>
      r == SelectManyByXPath(lib, lib.parseHtml(e.outerHtml), options.query.query, options.limit)
  {
    match options.query.queryType
    case CSS => SelectManyByCss(lib, lib.parseFragment(e.outerHtml), options.query.query, options.limit)
    case XPath => SelectManyByXPath(lib, lib.parseHtml(e.outerHtml), options.query.query, options.limit)
  }

  /** On an element handle, `selectFirst` is the head of `selectMany` for the same query and any limit. */
  lemma FirstIsHeadOfMany<Sel>(lib: Libraries<Sel>, e: HtmlElement, query: QueryConfig, limit: Option<int32>)
    ensures var many := SelectMany(lib, e, SelectManyOptions(query, limit));
      SelectFirst(lib, e, SelectFirstOptions(query)) == if |many| == 0 then None else Some(many[0])
  {
    CssFirstIsHeadOfMany(lib, lib.parseFragment(e.outerHtml), query.query, limit);
    XPathFirstIsHeadOfMany(lib, lib.parseHtml(e.outerHtml), query.query, limit);
  }

  /** A limit of zero, or any negative limit, is the same as no limit. */
  lemma NonPositiveLimitIsNoLimit<Sel>(lib: Libraries<Sel>, e: HtmlElement, query: QueryConfig, l: int32)
    requires l <= 0
    ensures SelectMany(lib, e, SelectManyOptions(query, Some(l))) == SelectMany(lib, e, SelectManyOptions(query, None))
  {
  }
}
