/**
 * src/types.rs: the query configuration values and the element handle.
 * An `HtmlElement` is nothing but its `outerHtml` string; every getter
 * re-parses that string as a fragment (a foreign call) and reads the
 * fragment's first element child. The scoped `select_first` /
 * `select_many` of the same file live in module `ElementSelect`, because
 * they call into `Engines`, which itself returns `HtmlElement`s.
 */
module Types {
  import opened Wrappers
  import opened Strings
  import opened Dom

  /** The two query languages. */
  datatype QueryType = CSS | XPath

  /** The numeric value the enum has on the JavaScript side. */
  function Discriminant(t: QueryType): (v: nat)
    ensures v < 2
    ensures v == 0 <==> t == CSS
  {
    match t
    case CSS => 0
    case XPath => 1
  }

  datatype QueryConfig = QueryConfig(query: string, queryType: QueryType)

  newtype int32 = x: int | -0x8000_0000 <= x < 0x8000_0000

  datatype SelectFirstOptions = SelectFirstOptions(query: QueryConfig)

  datatype SelectManyOptions = SelectManyOptions(query: QueryConfig, limit: Option<int32>)

  datatype HtmlElement = HtmlElement(outerHtml: string)

  /** The root element of the fragment an element handle re-parses. */
  function FragmentRoot<Sel>(lib: Libraries<Sel>, e: HtmlElement): Node {
    lib.parseFragment(e.outerHtml).rootElement
  }

  /** The first element among `children`, skipping text and comment nodes. */
  function FirstElementChild(children: seq<Node>): (r: Option<Node>)
    ensures r.None? <==> forall i :: 0 <= i < |children| ==> !children[i].Element?
    ensures r.Some? ==>
      exists i :: 0 <= i < |children| && children[i] == r.value && r.value.Element? &&
        forall j :: 0 <= j < i ==> !children[j].Element?
  {
    if children == [] then None
    else if children[0].Element? then Some(children[0])
    else
      var r := FirstElementChild(children[1..]);
      assert forall i :: 1 <= i < |children| ==> children[1..][i - 1] == children[i];
      r
  }

  /** `get_real_element`: the first element child of the fragment's root. */
  function RealElement<Sel>(lib: Libraries<Sel>, e: HtmlElement): (r: Option<Node>)
    ensures r.Some? ==> r.value.Element?
    ensures r.None? <==> forall c :: c in Children(FragmentRoot(lib, e)) ==> !c.Element?
    ensures r.Some? ==>
      var children := Children(FragmentRoot(lib, e));
      exists i :: 0 <= i < |children| && children[i] == r.value &&
        forall j :: 0 <= j < i ==> !children[j].Element?
  {
    FirstElementChild(Children(FragmentRoot(lib, e)))
  }

  /** The attributes of the real element, none when there is no element. */
  function RealAttrs<Sel>(lib: Libraries<Sel>, e: HtmlElement): seq<(string, string)> {
    match RealElement(lib, e)
    case Some(el) => el.attrs
    case None => []
  }

  /** `text`: the fragment's text nodes in document order, joined with one space. */
  function GetText<Sel>(lib: Libraries<Sel>, e: HtmlElement): (r: string)
    ensures r == Join(TextsOf(PreOrder(FragmentRoot(lib, e))), " ")
  {
    DescendantTextsInDocumentOrder(FragmentRoot(lib, e));
    Join(DescendantTexts(FragmentRoot(lib, e)), " ")
  }

  /** `id`: the element's `id` attribute, absent when there is no element or no such attribute. */
  function Id<Sel>(lib: Libraries<Sel>, e: HtmlElement): (r: Option<string>)
    ensures r.Some? <==> RealElement(lib, e).Some? && "id" in Names(RealAttrs(lib, e))
    ensures r.Some? ==> ("id", r.value) in RealAttrs(lib, e)
  {
    match RealElement(lib, e)
    case Some(el) => Attr(el.attrs, "id")
    case None => None
  }

  /** `tagName`: the element's name upper-cased, or "UNKNOWN" when the fragment has no element. */
  function TagName<Sel>(lib: Libraries<Sel>, e: HtmlElement): (r: string)
    ensures RealElement(lib, e).None? ==> r == "UNKNOWN"
    ensures RealElement(lib, e).Some? ==>
      EqualIgnoringCase(r, RealElement(lib, e).value.name) &&
      forall i :: 0 <= i < |r| ==> !IsLowerAscii(r[i])
  {
    match RealElement(lib, e)
    case Some(el) =>
      ToUpperIdentifiesCase(ToUpper(el.name), el.name);
      ToUpper(el.name)
    case None => "UNKNOWN"
  }

  /** `getAttribute(name)`: the value stored under exactly `name`, or absent. */
  function GetAttribute<Sel>(lib: Libraries<Sel>, e: HtmlElement, name: string): (r: Option<string>)
    ensures r.Some? <==> RealElement(lib, e).Some? && name in Names(RealAttrs(lib, e))
    ensures r.Some? ==> (name, r.value) in RealAttrs(lib, e)
    ensures r.Some? && UniqueNames(RealAttrs(lib, e)) ==>
      forall i :: 0 <= i < |RealAttrs(lib, e)| && RealAttrs(lib, e)[i].0 == name ==> RealAttrs(lib, e)[i].1 == r.value
  {
    match RealElement(lib, e)
    case Some(el) => Attr(el.attrs, name)
    case None => None
  }

  /** `className`: the raw `class` attribute, or "" (never absent). */
  function ClassName<Sel>(lib: Libraries<Sel>, e: HtmlElement): (r: string)
    ensures "class" !in Names(RealAttrs(lib, e)) ==> r == ""
    ensures "class" in Names(RealAttrs(lib, e)) ==> ("class", r) in RealAttrs(lib, e)
  {
    match RealElement(lib, e)
    case Some(el) => (match Attr(el.attrs, "class") case Some(v) => v case None => "")
    case None => ""
  }

  /** `classList`: the whitespace-separated tokens of the `class` attribute; [] when it is absent. */
  function ClassList<Sel>(lib: Libraries<Sel>, e: HtmlElement): (r: seq<string>)
    ensures "class" !in Names(RealAttrs(lib, e)) ==> r == []
    ensures r == SplitWhitespace(ClassName(lib, e))
    ensures forall i :: 0 <= i < |r| ==> IsToken(r[i])
    ensures Concat(r) == RemoveWhitespace(ClassName(lib, e))
  {
    var classes := match RealElement(lib, e)
      case Some(el) => Attr(el.attrs, "class")
      case None => None;
    match classes
    case Some(c) =>
      SplitWhitespaceKeepsContent(c);
      SplitWhitespace(c)
    case None => []
  }

  /** What inserting `attrs` in order into an empty map gives: a later repeat overwrites. */
  function AttrMap(attrs: seq<(string, string)>): map<string, string> {
    if attrs == [] then map[]
    else AttrMap(attrs[..|attrs| - 1])[attrs[|attrs| - 1].0 := attrs[|attrs| - 1].1]
  }

  /** The map holds exactly the attribute names, each with a value stored under it. */
  lemma {:induction false} AttrMapHoldsAttributes(attrs: seq<(string, string)>)
    ensures AttrMap(attrs).Keys == Names(attrs)
    ensures forall k :: k in AttrMap(attrs) ==> (k, AttrMap(attrs)[k]) in attrs
  {
    if attrs != [] {
      var init, last := attrs[..|attrs| - 1], attrs[|attrs| - 1];
      AttrMapHoldsAttributes(init);
      assert attrs == init + [last];
      assert Names(attrs) == Names(init) + {last.0} by {
        forall k | k in Names(attrs) ensures k in Names(init) + {last.0} {
          var i :| 0 <= i < |attrs| && attrs[i].0 == k;
          if i < |attrs| - 1 { assert init[i] == attrs[i]; }
        }
        forall k | k in Names(init) ensures k in Names(attrs) {
          var i :| 0 <= i < |init| && init[i].0 == k;
          assert attrs[i] == init[i];
        }
      }
    }
  }

  /** With distinct names, the map agrees with `getAttribute` on every name (attributes here carry no namespace). */
  lemma {:induction false} AttrMapAgreesWithAttr(attrs: seq<(string, string)>, name: string)
    requires UniqueNames(attrs)
    ensures name in AttrMap(attrs) <==> Attr(attrs, name).Some?
    ensures name in AttrMap(attrs) ==> AttrMap(attrs)[name] == Attr(attrs, name).value
  {
    AttrMapHoldsAttributes(attrs);
  }

  /** `attributes`: every attribute of the real element inserted into a fresh map. */
  method Attributes<Sel>(lib: Libraries<Sel>, e: HtmlElement) returns (attrMap: map<string, string>)
    ensures attrMap == AttrMap(RealAttrs(lib, e))
    ensures attrMap.Keys == Names(RealAttrs(lib, e))
    ensures RealElement(lib, e).None? ==> attrMap == map[]
  {
    attrMap := map[];
    var attrs := RealAttrs(lib, e);
    var i := 0;
    while i < |attrs|
      invariant 0 <= i <= |attrs|
      invariant attrMap == AttrMap(attrs[..i])
    {
      assert attrs[..i + 1][..i] == attrs[..i];
      attrMap := attrMap[attrs[i].0 := attrs[i].1];
      i := i + 1;
    }
    assert attrs[..i] == attrs;
    AttrMapHoldsAttributes(attrs);
  }
}
