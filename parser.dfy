/**
 * src/parser.rs and the `parse` entry point of src/lib.rs: the document-level
 * parser. It keeps the markup it was built from and two lazily filled slots,
 * one per engine: `document` (the `scraper` tree, for CSS) and `package` (the
 * `sxd_html` tree, for XPath). A slot is parsed on its first use and reused
 * afterwards; the ghost counters record how many times each parse ran.
 */
module Parser {
  import opened Wrappers
  import opened Dom
  import opened Types
  import opened Engines

  class HtmlParser<!Sel> {
    const lib: Libraries<Sel>
    const content: string
    var document: Option<Html>
    var package: Option<Package>
    ghost var documentParses: nat
    ghost var packageParses: nat

    /** A filled slot holds the parse of `content`, and each slot was parsed once if filled, never otherwise. */
    ghost predicate Valid()
      reads this
    {
      && (document.Some? ==> document.value == lib.parseDocument(content))
      && (package.Some? ==> package.value == lib.parseHtml(content))
      && documentParses == (if document.Some? then 1 else 0)
      && packageParses == (if package.Some? then 1 else 0)
    }

    /** `HTMLParser::new`: keep `content`, parse nothing yet. */
    constructor (lib: Libraries<Sel>, content: string)
      ensures Valid()
      ensures this.lib == lib && this.content == content
      ensures document == None && package == None
      ensures documentParses == 0 && packageParses == 0
    {
      this.lib := lib;
      this.content := content;
      document := None;
      package := None;
      documentParses := 0;
      packageParses := 0;
    }

    /** `get_package`: parse for XPath on first use, reuse the slot afterwards. */
    method GetPackage() returns (p: Package)
      requires Valid()
      modifies this`package, this`packageParses
      ensures Valid()
      ensures p == lib.parseHtml(content) && package == Some(p)
      ensures old(package).Some? ==> package == old(package) && packageParses == old(packageParses)
      ensures document == old(document) && documentParses == old(documentParses)
    {
      if package.None? {
        var parsed := lib.parseHtml(content);
        package := Some(parsed);
        packageParses := packageParses + 1;
      }
      p := package.value;
    }

    /** `get_document`: parse for CSS on first use, reuse the slot afterwards. */
    method GetDocument() returns (d: Html)
      requires Valid()
      modifies this`document, this`documentParses
      ensures Valid()
      ensures d == lib.parseDocument(content) && document == Some(d)
      ensures old(document).Some? ==> document == old(document) && documentParses == old(documentParses)
      ensures package == old(package) && packageParses == old(packageParses)
    {
      if document.None? {
        var parsed := lib.parseDocument(content);
        document := Some(parsed);
        documentParses := documentParses + 1;
      }
      d := document.value;
    }

    /** `select_first`: a CSS query fills and reads only `document`, an XPath query only `package`. */
    method SelectFirst(options: SelectFirstOptions) returns (r: Option<HtmlElement>)
      requires Valid()
      modifies this`document, this`documentParses, this`package, this`packageParses
      ensures Valid()
      ensures options.query.queryType == CSS ==>
        && r == SelectFirstByCss(lib, lib.parseDocument(content), options.query.query)
        && document.Some?
        && package == old(package) && packageParses == old(packageParses)
      ensures options.query.queryType == XPath ==>
        && r == SelectFirstByXPath(lib, lib.parseHtml(content), options.query.query)
        && package.Some?
        && document == old(document) && documentParses == old(documentParses)
      ensures old(document).Some? ==> document == old(document)
      ensures old(package).Some? ==> package == old(package)
    {
      var query := options.query;
      match query.queryType
      case CSS =>
        var document := GetDocument();
        r := SelectFirstByCss(lib, document, query.query);
      case XPath =>
        var package := GetPackage();
        r := SelectFirstByXPath(lib, package, query.query);
    }

    /** `select_many`: the same dispatch, with `options.limit` passed on unchanged. */
    method SelectMany(options: SelectManyOptions) returns (r: seq<HtmlElement>)
      requires Valid()
      modifies this`document, this`documentParses, this`package, this`packageParses
      ensures Valid()
      ensures options.query.queryType == CSS ==>
        && r == SelectManyByCss(lib, lib.parseDocument(content), options.query.query, options.limit)
        && document.Some?
        && package == old(package) && packageParses == old(packageParses)
      ensures options.query.queryType == XPath ==>
        && r == SelectManyByXPath(lib, lib.parseHtml(content), options.query.query, options.limit)
        && package.Some?
        && document == old(document) && documentParses == old(documentParses)
      ensures old(document).Some? ==> document == old(document)
      ensures old(package).Some? ==> package == old(package)
    {
      var query := options.query;
      match query.queryType
      case CSS =>
        var document := GetDocument();
        r := SelectManyByCss(lib, document, query.query, options.limit);
      case XPath =>
        var package := GetPackage();
        r := SelectManyByXPath(lib, package, query.query, options.limit);
    }
  }

  /** `parse(content)`: an alias for `HTMLParser::new`. */
  method Parse<Sel>(lib: Libraries<Sel>, content: string) returns (p: HtmlParser<Sel>)
    ensures fresh(p) && p.Valid()
    ensures p.lib == lib && p.content == content
    ensures p.document == None && p.package == None
  {
    p := new HtmlParser(lib, content);
  }

  /**
   * Reusing a parser is invisible: the same query asked twice of one parser, after any
   * other query, gives what a fresh parser gives, and each tree is parsed at most once.
   */
  method ReuseMatchesFreshParser<Sel>(lib: Libraries<Sel>, content: string, other: SelectFirstOptions, options: SelectManyOptions)
    returns (first: seq<HtmlElement>, second: seq<HtmlElement>, fromNew: seq<HtmlElement>)
    ensures first == second == fromNew
  {
    var p := Parse(lib, content);
    var _ := p.SelectFirst(other);
    first := p.SelectMany(options);
    second := p.SelectMany(options);
    var q := new HtmlParser(lib, content);
    fromNew := q.SelectMany(options);
  }
}
