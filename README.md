# html-parser: a Dafny model of the binding's own logic

The repository is a small Node binding (written in Rust) that parses HTML and answers
CSS-selector and XPath queries. It hands parsing, selector matching, XPath evaluation
and serialisation to foreign libraries: `scraper` (html5ever), `sxd_html` and
`sxd_xpath`. This model covers the code the repository owns:

- **Result shaping** (`src/engines.rs`, module `Engines`). A selector that fails to
  compile, an XPath evaluation error, or an XPath value that is not a node-set becomes
  `None` or `[]`. A limit `Some(l)` truncates to the first `l` matches only when `l > 0`.
  A limit of `0`, a negative limit and no limit all return every match. `select_first`
  is the head of the same ordered match sequence.
- **The lazily parsed document** (`src/parser.rs` and `parse` in `src/lib.rs`, module
  `Parser`). `HtmlParser` is a class with an immutable `content` and two `Option`
  slots: `document` for CSS and `package` for XPath. A slot is filled on first use and
  reused after that. Ghost counters record that each tree is parsed at most once.
- **Element handles** (`src/types.rs`, modules `Types` and `ElementSelect`). A handle is
  only its `outerHtml` string, and every getter re-parses that string as a fragment.
  `text` joins the text nodes under the fragment root. The other getters read the
  first element child of the fragment root: `id`, `tagName`, `getAttribute`,
  `attributes`, `className` and `classList`. Scoped
  `selectFirst` / `selectMany` dispatch on the query kind. types.rs calls the engines
  and the engines return handles, so its scoped queries sit in their own module,
  `ElementSelect`; Dafny modules cannot import each other in a cycle.
- **Query builders** (`src/query_builders.rs`, module `QueryBuilders`). `css` and
  `xpath` stamp a query string with its kind. types.rs:154-168 repeats them with the
  same bodies, and they are modelled once.

The foreign libraries are the fields of `Dom.Libraries<Sel>`. Each field is a total
function: parse a document, parse a fragment, parse for XPath, compile a selector,
select, serialise an element, evaluate XPath, and take a node's string value. Every
operation receives these functions as a parameter. The parser stores them in a
`const` field. Parsed trees are `Dom.Node` values:
`Element(name, attrs, children) | Text(contents) | Comment`. `Strings` holds the
standard-library string operations the getters use: `split_whitespace`, with the
full Unicode White_Space set that `char::is_whitespace` uses; `join`; and an ASCII
`to_uppercase`.

Behaviour of the code worth noting:

- An XPath result's `outerHtml` is the node's string value, not its markup
  (engines.rs:22, engines.rs:64). `SelectManyByXPath` and `SelectFirstByXPath` state
  this.
- Scoped queries re-parse the handle's `outerHtml`; they do not search a subtree of
  the original tree.
- `attributes` is a hash map with no order.
- A negative limit is accepted and means "no limit".

## Model

| member | source | states |
|---|---|---|
| Engines.Take | src/engines.rs:41-47 | result is a prefix of the input; with `Some(l)`, `l > 0` its length is `min(l, n)`; with `None` or `l <= 0` it is the whole input |
| Engines.Wrap | src/engines.rs:37-39 | one handle per node, in order, each carrying that node's serialisation |
| Engines.SelectFirstByCss | src/engines.rs:6-14 | `None` when the selector does not compile; `Some` iff there is a match, and then it is the first match, carrying its `html()` |
| Engines.SelectFirstByXPath | src/engines.rs:16-27 | `None` on an evaluation error or a non-node-set value; `Some` iff the node-set is non-empty, and then it is the first node in document order, carrying its string value |
| Engines.SelectManyByCss | src/engines.rs:29-48 | `[]` when the selector does not compile; always a prefix of the match sequence; length `min(l, n)` for a positive limit; every match for no limit or a limit `<= 0` |
| Engines.SelectManyByXPath | src/engines.rs:50-77 | `[]` on an evaluation error or a non-node-set value; a prefix of the node-set in document order; the same limit rule; each handle carries the node's string value |
| Engines.CssFirstIsHeadOfMany | src/engines.rs:6-48 | `select_first_by_css` equals element 0 of `select_many_by_css` (or `None` when it is empty) for every limit |
| Engines.XPathFirstIsHeadOfMany | src/engines.rs:16-77 | `select_first_by_xpath` equals element 0 of `select_many_by_xpath` (or `None` when it is empty) for every limit |
| Engines.CssLimitsNest | src/engines.rs:41-45 | for positive limits `k <= l`, the result with limit `k` is a prefix of the result with limit `l` |
| Parser.HtmlParser.constructor | src/parser.rs:20-26 | keeps `content` unchanged, both slots `None`, nothing parsed yet |
| Parser.HtmlParser.GetPackage | src/parser.rs:28-35 | afterwards `package == Some(parse_html(content))`, which is returned; a filled slot is left as it is, with no second parse; `document` is untouched |
| Parser.HtmlParser.GetDocument | src/parser.rs:37-44 | afterwards `document == Some(parse_document(content))`, which is returned; a filled slot is left as it is, with no second parse; `package` is untouched |
| Parser.HtmlParser.SelectFirst | src/parser.rs:46-60 | a CSS query returns the CSS engine's first match on `parse_document(content)` and leaves `package` alone; an XPath query returns the XPath engine's first node on `parse_html(content)` and leaves `document` alone; the cache invariant is kept |
| Parser.HtmlParser.SelectMany | src/parser.rs:62-76 | the same dispatch, with `options.limit` passed to the engine unchanged |
| Parser.Parse | src/lib.rs:11-14 | gives the same state as `HTMLParser::new(content)` |
| Parser.ReuseMatchesFreshParser | src/parser.rs:28-44 | asking the same query twice of one parser, after another query, gives the same result both times, and it equals what a new parser gives |
| Types.Discriminant | src/types.rs:6-10 | `CSS` is 0 and `XPath` is 1 |
| Types.FirstElementChild | src/types.rs:46-49 | the first element among the children, skipping text and comments; `None` iff no child is an element |
| Types.RealElement | src/types.rs:42-50 | the first element child of the fragment root (no earlier child is an element); `None` iff the root has no element child |
| Types.GetText | src/types.rs:27-32 | the text nodes of the fragment, in document (pre-)order, joined with one `" "` |
| Types.Id | src/types.rs:34-40 | `Some(v)` exactly when there is an element and it has an `id` attribute, and then `("id", v)` is one of its attributes |
| Types.TagName | src/types.rs:52-60 | `"UNKNOWN"` when there is no element; otherwise the element's name up to ASCII case, with no lower-case ASCII letter left |
| Types.GetAttribute | src/types.rs:62-69 | `Some(v)` exactly when there is an element with an attribute of exactly that name; `v` is the value stored under it |
| Types.ClassName | src/types.rs:85-93 | the `class` attribute as stored, or `""` when it is absent (never absent itself) |
| Types.ClassList | src/types.rs:95-108 | the whitespace split of `className`, so `[]` when `class` is absent; its tokens are non-empty, whitespace-free and together hold every non-whitespace character of `className`, in order |
| Types.Attributes | src/types.rs:71-83 | the loop's map is the one built by inserting the attributes in order; its keys are exactly the attribute names; empty when there is no element |
| Types.AttrMapHoldsAttributes | src/types.rs:74-80 | inserting the attributes gives a map whose keys are exactly their names, each mapped to a value stored under that name |
| Types.AttrMapAgreesWithAttr | src/types.rs:62-83 | for attributes without a namespace and with distinct names, as the parser gives them, `attributes` and `getAttribute` agree on every name |
| ElementSelect.SelectFirst | src/types.rs:110-124 | CSS goes to the CSS engine on the re-parsed fragment; XPath goes to the XPath engine on the `sxd_html` parse of the same markup |
| ElementSelect.SelectMany | src/types.rs:126-140 | the same dispatch, with the limit passed through unchanged |
| ElementSelect.FirstIsHeadOfMany | src/types.rs:110-140 | on a handle, `selectFirst` is the head of `selectMany` for the same query and every limit |
| ElementSelect.NonPositiveLimitIsNoLimit | src/types.rs:126-140 | a limit of zero or less returns the same as no limit |
| QueryBuilders.Css | src/query_builders.rs:5-11 | keeps the query string verbatim, including `""`, and stamps it `CSS` |
| QueryBuilders.Xpath | src/query_builders.rs:13-19 | keeps the query string verbatim, including `""`, and stamps it `XPath` |
| QueryBuilders.BuildersDifferOnlyInKind | src/query_builders.rs:6-19 | `css(q)` and `xpath(q)` differ only in their kind, numbered 0 and 1 |
| Strings.SplitWhitespace | src/types.rs:102-105 | every token is non-empty and free of whitespace |
| Strings.SplitWhitespaceKeepsContent | src/types.rs:102-105 | the tokens, concatenated, are the input with its whitespace removed |
| Strings.SplitWhitespaceSkipsWhitespace | src/types.rs:102-105 | whitespace in front of the input yields no token |
| Strings.SplitWhitespaceBreaksAtWhitespace | src/types.rs:102-105 | a token followed by whitespace is split off whole, so tokens end exactly at whitespace |
| Strings.SplitJoinRoundTrip | src/types.rs:102-105 | splitting tokens joined with single spaces gives back the same tokens |
| Strings.ToUpper | src/types.rs:57 | same length, no lower-case ASCII letter left, other characters kept |
| Strings.ToUpperIdentifiesCase | src/types.rs:57 | two names give the same tag name iff they are equal up to ASCII case |
| Dom.Attr | src/types.rs:67 | `Some` iff an attribute of that exact name exists; the value is stored under that name, and it is the only one when names are distinct |
| Dom.DescendantTextsInDocumentOrder | src/types.rs:31 | the text nodes a subtree yields are its text nodes, in pre-order |

## Left out

- Parsing, selector compilation and matching, XPath evaluation, document ordering of node-sets, `html()` and `string_value()` come from foreign libraries. They are fields of `Dom.Libraries`, and nothing is assumed about them beyond their types.
- Scope isolation of element queries comes only from re-parsing `outerHtml` inside those libraries, so the model cannot state it.
- Engines.SelectFirstByXPath: an `sxd_xpath` node-set is unordered; the model receives it already in document order, as `document_order()` returns it.
- XPath number values are floating point and carry no payload in `Dom.XPathValue`.
- Types.TagName: upper-cases ASCII letters only, not the full Unicode `to_uppercase`, which can also change the length.
- Strings.ToUpper: ASCII letters only, for the same reason.
- Types.Attributes: the result is a map, so the hash map's iteration order is not modelled.
- Types.AttrMapAgreesWithAttr: attributes are modelled by one name each, with no namespace, so the agreement between Types.Attributes and Types.GetAttribute holds only for attributes without a namespace. For foreign-content attributes the parser puts in a namespace (`xmlns`, `xmlns:xlink`, `xlink:href`, `xml:lang` on inline SVG or MathML), `attributes` keys the local name while `getAttribute` looks up only un-namespaced names, and the two can disagree.
- The napi layer is binding plumbing and is not modelled: attributes, JavaScript names, and marshalling of `i32` and `Option`. The limit is an `int32` newtype.
- Accessors the tests use but the source shown does not define (`innerHTML`, `firstChild`, `lastChild`, `toString`) are not part of this model.
- `HTMLElement` (parser.rs:8) and `HtmlElement` (types.rs:20) are one type here.
