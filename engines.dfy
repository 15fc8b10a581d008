/**
 * src/engines.rs: run a CSS selector or an XPath expression through the
 * foreign engines and shape the outcome. Compile and evaluation failures,
 * and XPath values that are not node-sets, become "no match"; a limit
 * truncates only when it is positive.
 */
module Engines {
  import opened Wrappers
  import opened Dom
  import opened Types

  /** `iter.take(l)` when `limit` is `Some(l)` with `l > 0`, otherwise the whole of `xs`. */
  function Take<T>(xs: seq<T>, limit: Option<int32>): (r: seq<T>)
    ensures r <= xs
    ensures limit.Some? && limit.value > 0 ==>
      |r| == Min(limit.value as int, |xs|)
    ensures limit.None? || limit.value <= 0 ==> r == xs
  {
    if limit.Some? && limit.value > 0 && (limit.value as int) < |xs| then xs[..limit.value] else xs
  }

  /** Wrap each node as an element handle whose `outerHtml` is `serialise(node)`. */
  function Wrap(nodes: seq<Node>, serialise: Node -> string): (r: seq<HtmlElement>)
    ensures |r| == |nodes|
    ensures forall i :: 0 <= i < |nodes| ==> r[i].outerHtml == serialise(nodes[i])
  {
    seq(|nodes|, i requires 0 <= i < |nodes| => HtmlElement(serialise(nodes[i])))
  }

  /** Every match of `query` in `document`, as handles carrying the matched markup; none if it does not compile. */
  function CssMatches<Sel>(lib: Libraries<Sel>, document: Html, query: string): seq<HtmlElement> {
    match lib.parseSelector(query)
    case None => []
    case Some(sel) => Wrap(lib.select(document, sel), lib.html)
  }

  /** Every node of the node-set `query` evaluates to, as handles carrying the node's string value. */
  function XPathMatches<Sel>(lib: Libraries<Sel>, package: Package, query: string): seq<HtmlElement> {
    match lib.evaluateXPath(package, query)
    case Success(Nodeset(nodes)) => Wrap(nodes, lib.stringValue)
    case _ => []
  }

  function SelectFirstByCss<Sel>(lib: Libraries<Sel>, document: Html, query: string): (r: Option<HtmlElement>)
    ensures lib.parseSelector(query).None? ==> r == None
    ensures r.Some? <==> |CssMatches(lib, document, query)| > 0
    ensures r.Some? ==>
      var sel := lib.parseSelector(query).value;
      r.value == CssMatches(lib, document, query)[0] &&
      r.value.outerHtml == lib.html(lib.select(document, sel)[0])
  {
    match lib.parseSelector(query)
    case None => None
    case Some(sel) =>
      var matches := lib.select(document, sel);
      if |matches| == 0 then None else Some(HtmlElement(lib.html(matches[0])))
  }

  function SelectFirstByXPath<Sel>(lib: Libraries<Sel>, package: Package, query: string): (r: Option<HtmlElement>)
    ensures lib.evaluateXPath(package, query).Failure? ==> r == None
    ensures lib.evaluateXPath(package, query).Success? && !lib.evaluateXPath(package, query).value.Nodeset? ==> r == None
    ensures r.Some? <==> |XPathMatches(lib, package, query)| > 0
    ensures r.Some? ==>
      var nodes := lib.evaluateXPath(package, query).value.inDocumentOrder;
      r.value == XPathMatches(lib, package, query)[0] &&
      r.value.outerHtml == lib.stringValue(nodes[0])
  {
    match lib.evaluateXPath(package, query)
    case Failure(_) => None
    case Success(value) =>
      if value.Nodeset? then
        var nodes := value.inDocumentOrder;
        if |nodes| == 0 then None else Some(HtmlElement(lib.stringValue(nodes[0])))
      else None
  }

  function SelectManyByCss<Sel>(lib: Libraries<Sel>, document: Html, query: string, limit: Option<int32>): (r: seq<HtmlElement>)
    ensures lib.parseSelector(query).None? ==> r == []
    ensures r <= CssMatches(lib, document, query)
    ensures limit.Some? && limit.value > 0 ==>
      |r| == Min(limit.value as int, |CssMatches(lib, document, query)|)
    ensures limit.None? || limit.value <= 0 ==> r == CssMatches(lib, document, query)
  {
    match lib.parseSelector(query)
    case None => []
    case Some(sel) => Take(Wrap(lib.select(document, sel), lib.html), limit)
  }

  function SelectManyByXPath<Sel>(lib: Libraries<Sel>, package: Package, query: string, limit: Option<int32>): (r: seq<HtmlElement>)
    ensures lib.evaluateXPath(package, query).Failure? ==> r == []
    ensures lib.evaluateXPath(package, query).Success? && !lib.evaluateXPath(package, query).value.Nodeset? ==> r == []
    ensures r <= XPathMatches(lib, package, query)
    ensures limit.Some? && limit.value > 0 ==>
      |r| == Min(limit.value as int, |XPathMatches(lib, package, query)|)
    ensures limit.None? || limit.value <= 0 ==> r == XPathMatches(lib, package, query)
    ensures forall i :: 0 <= i < |r| ==>
      r[i].outerHtml == lib.stringValue(lib.evaluateXPath(package, query).value.inDocumentOrder[i])
  {
    match lib.evaluateXPath(package, query)
    case Failure(_) => []
    case Success(value) =>
      if value.Nodeset? then Take(Wrap(value.inDocumentOrder, lib.stringValue), limit) else []
  }

  function Min(a: int, b: int): int {
    if a < b then a else b
  }

  /** `select_first_by_css` is the head of `select_many_by_css`, whatever the limit. */
  lemma CssFirstIsHeadOfMany<Sel>(lib: Libraries<Sel>, document: Html, query: string, limit: Option<int32>)
    ensures var many := SelectManyByCss(lib, document, query, limit);
      SelectFirstByCss(lib, document, query) == if |many| == 0 then None else Some(many[0])
  {
  }

  /** `select_first_by_xpath` is the head of `select_many_by_xpath`, whatever the limit. */
  lemma XPathFirstIsHeadOfMany<Sel>(lib: Libraries<Sel>, package: Package, query: string, limit: Option<int32>)
    ensures var many := SelectManyByXPath(lib, package, query, limit);
      SelectFirstByXPath(lib, package, query) == if |many| == 0 then None else Some(many[0])
  {
  }

  /** A larger positive limit only extends the result: results for growing limits are prefixes of each other. */
  lemma CssLimitsNest<Sel>(lib: Libraries<Sel>, document: Html, query: string, k: int32, l: int32)
    requires 0 < k <= l
    ensures SelectManyByCss(lib, document, query, Some(k)) <= SelectManyByCss(lib, document, query, Some(l))
  {
  }
}
