/**
 * The boundary to the foreign libraries: the node tree they produce and the
 * functions the binding calls on it. HTML parsing (html5ever via `scraper`,
 * and `sxd_html`), CSS selector compilation and matching, XPath evaluation
 * and serialisation are not part of this model; they are the fields of
 * `Libraries`, total functions that every operation receives as a parameter.
 */
module Dom {
  import opened Wrappers

  /** A parsed node: an element with its attributes in stored order, a text node, or a comment. */
  datatype Node =
    | Element(name: string, attrs: seq<(string, string)>, children: seq<Node>)
    | Text(contents: string)
    | Comment

  /** A `scraper::Html` tree, seen through its `root_element()`. */
  datatype Html = Html(rootElement: Node)

  /** An `sxd_document::Package`, seen through its document node. */
  datatype Package = Package(document: Node)

  /** `sxd_xpath::Value`; the node-set is given in document order (`document_order()`). */
  datatype XPathValue =
    | Nodeset(inDocumentOrder: seq<Node>)
    | Boolean(b: bool)
    | Number
    | Str(s: string)

  /** `sxd_xpath::Error`. */
  datatype XPathError = Parsing | Executing

  /** The foreign collaborators; `Sel` is the type of a compiled `scraper::Selector`. */
  datatype Libraries<!Sel> = Libraries(
    parseDocument: string -> Html,                          // Html::parse_document
    parseFragment: string -> Html,                          // Html::parse_fragment
    parseHtml: string -> Package,                           // sxd_html::parse_html
    parseSelector: string -> Option<Sel>,                   // Selector::parse(..).ok()
    select: (Html, Sel) -> seq<Node>,                       // Html::select, in document order
    html: Node -> string,                                   // ElementRef::html (outer markup)
    evaluateXPath: (Package, string) -> Result<XPathValue, XPathError>,  // evaluate_xpath
    stringValue: Node -> string                             // sxd node string_value
  )

  /** `children()` of a node: only elements have any. */
  function Children(n: Node): seq<Node> {
    if n.Element? then n.children else []
  }

  /** The names of the stored attributes. */
  function Names(attrs: seq<(string, string)>): set<string> {
    set i | 0 <= i < |attrs| :: attrs[i].0
  }

  /** `Element::attr(name)`: the value stored under `name`, by exact name. */
  function Attr(attrs: seq<(string, string)>, name: string): (r: Option<string>)
    ensures r.Some? <==> name in Names(attrs)
    ensures r.Some? ==> exists i :: 0 <= i < |attrs| && attrs[i] == (name, r.value)
    ensures r.Some? ==> forall i :: 0 <= i < |attrs| && attrs[i].0 == name && UniqueNames(attrs) ==> attrs[i].1 == r.value
  {
    if attrs == [] then None
    else if attrs[0].0 == name then Some(attrs[0].1)
    else
      var r := Attr(attrs[1..], name);
      assert forall i :: 1 <= i < |attrs| ==> attrs[1..][i - 1] == attrs[i];
      r
  }

  /** The attribute names of a parsed element are distinct (the tokenizer drops repeats). */
  predicate UniqueNames(attrs: seq<(string, string)>) {
    forall i, j :: 0 <= i < j < |attrs| ==> attrs[i].0 != attrs[j].0
  }

  /** The text nodes of a subtree, in document order (`ElementRef::text()`). */
  function DescendantTexts(n: Node): seq<string>
    decreases n
  {
    match n
    case Text(s) => [s]
    case Comment => []
    case Element(_, _, cs) => DescendantTextsAll(cs)
  }

  function DescendantTextsAll(ns: seq<Node>): seq<string>
    decreases ns
  {
    if ns == [] then [] else DescendantTexts(ns[0]) + DescendantTextsAll(ns[1..])
  }

  /** Reference order: the subtree's nodes in pre-order (document order). */
  function PreOrder(n: Node): (r: seq<Node>)
    ensures |r| > 0 && r[0] == n
    decreases n
  {
    [n] + (if n.Element? then PreOrderAll(n.children) else [])
  }

  function PreOrderAll(ns: seq<Node>): seq<Node>
    decreases ns
  {
    if ns == [] then [] else PreOrder(ns[0]) + PreOrderAll(ns[1..])
  }

  /** The contents of the text nodes among `ns`, in order. */
  function TextsOf(ns: seq<Node>): seq<string> {
    if ns == [] then []
    else if ns[0].Text? then [ns[0].contents] + TextsOf(ns[1..])
    else TextsOf(ns[1..])
  }

  lemma {:induction false} TextsOfAppend(a: seq<Node>, b: seq<Node>)
    ensures TextsOf(a + b) == TextsOf(a) + TextsOf(b)
  {
    if a == [] {
      assert a + b == b;
    } else {
      assert (a + b)[0] == a[0] && (a + b)[1..] == a[1..] + b;
      TextsOfAppend(a[1..], b);
    }
  }

  /** The text nodes a subtree yields are exactly its text nodes in document order. */
  lemma {:induction false} DescendantTextsInDocumentOrder(n: Node)
    ensures DescendantTexts(n) == TextsOf(PreOrder(n))
    decreases n
  {
    match n
    case Text(s) =>
    case Comment =>
    case Element(_, _, cs) =>
      DescendantTextsAllInDocumentOrder(cs);
      TextsOfAppend([n], PreOrderAll(cs));
  }

  lemma {:induction false} DescendantTextsAllInDocumentOrder(ns: seq<Node>)
    ensures DescendantTextsAll(ns) == TextsOf(PreOrderAll(ns))
    decreases ns
  {
    if ns != [] {
      DescendantTextsInDocumentOrder(ns[0]);
      DescendantTextsAllInDocumentOrder(ns[1..]);
      TextsOfAppend(PreOrder(ns[0]), PreOrderAll(ns[1..]));
    }
  }
}
