/**
 * The editor's HTML hooks: `getExtraStyles`, which keeps only the
 * non-default font size and colours of a pasted element as CSS
 * declarations, and `removeStylesExportDOM`, which strips presentation
 * attributes from exported paragraph and text elements.
 */
module EditorHtml {
  import opened Lexical

  /** `element.style.fontSize`, `.backgroundColor` and `.color` of a
      pasted element, before parsing. */
  datatype InlineStyle = InlineStyle(fontSize: string, backgroundColor: string, color: string)

  /** One CSS declaration `property: value;`. */
  datatype Declaration = Declaration(property: string, value: string)

  const DEFAULT_FONT_SIZE: string := "15px"
  const DEFAULT_BACKGROUND_COLOR: string := "rgb(255, 255, 255)"
  const DEFAULT_COLOR: string := "rgb(0, 0, 0)"

  /** A parsed value is kept when it is non-empty and not the default. */
  predicate Kept(value: string, default: string)
  {
    value != "" && value != default
  }

  /** The declarations `getExtraStyles` emits for the parsed values, in
      its fixed order: font size, background colour, colour. */
  function ExtraDeclarations(fontSize: string, backgroundColor: string, color: string): seq<Declaration>
  {
    (if Kept(fontSize, DEFAULT_FONT_SIZE) then [Declaration("font-size", fontSize)] else []) +
    (if Kept(backgroundColor, DEFAULT_BACKGROUND_COLOR) then [Declaration("background-color", backgroundColor)] else []) +
    (if Kept(color, DEFAULT_COLOR) then [Declaration("color", color)] else [])
  }

  /** The position of each property in that fixed order. */
  function PropertyRank(property: string): nat
  {
    if property == "font-size" then 0 else if property == "background-color" then 1 else 2
  }

  function RenderDeclaration(d: Declaration): string
  {
    d.property + ": " + d.value + ";"
  }

  function RenderDeclarations(ds: seq<Declaration>): string
  {
    if ds == [] then "" else RenderDeclaration(ds[0]) + RenderDeclarations(ds[1..])
  }

  /** `getExtraStyles(element)`. The two parsers come from a style
      configuration that is not part of this model, so they are
      parameters. */
  method GetExtraStyles(element: InlineStyle, parseAllowedFontSize: string -> string, parseAllowedColor: string -> string)
    returns (extraStyles: string)
    ensures extraStyles == RenderDeclarations(ExtraDeclarations(
      parseAllowedFontSize(element.fontSize), parseAllowedColor(element.backgroundColor), parseAllowedColor(element.color)))
  {
    extraStyles := "";
    var fontSize := parseAllowedFontSize(element.fontSize);
    var backgroundColor := parseAllowedColor(element.backgroundColor);
    var color := parseAllowedColor(element.color);
    ghost var ds: seq<Declaration> := [];
    if fontSize != "" && fontSize != DEFAULT_FONT_SIZE {
      RenderDeclarationsSnoc(ds, Declaration("font-size", fontSize));
      extraStyles := extraStyles + RenderDeclaration(Declaration("font-size", fontSize));
      ds := ds + [Declaration("font-size", fontSize)];
    }
    if backgroundColor != "" && backgroundColor != DEFAULT_BACKGROUND_COLOR {
      RenderDeclarationsSnoc(ds, Declaration("background-color", backgroundColor));
      extraStyles := extraStyles + RenderDeclaration(Declaration("background-color", backgroundColor));
      ds := ds + [Declaration("background-color", backgroundColor)];
    }
    if color != "" && color != DEFAULT_COLOR {
      RenderDeclarationsSnoc(ds, Declaration("color", color));
      extraStyles := extraStyles + RenderDeclaration(Declaration("color", color));
      ds := ds + [Declaration("color", color)];
    }
    assert ds == ExtraDeclarations(fontSize, backgroundColor, color);
  }

  lemma RenderDeclarationsSnoc(ds: seq<Declaration>, d: Declaration)
    ensures RenderDeclarations(ds + [d]) == RenderDeclarations(ds) + RenderDeclaration(d)
  {
    RenderDeclarationsAppend(ds, [d]);
    assert RenderDeclarations([d]) == RenderDeclaration(d) + RenderDeclarations([]);
  }

  lemma {:induction false} RenderDeclarationsAppend(a: seq<Declaration>, b: seq<Declaration>)
    ensures RenderDeclarations(a + b) == RenderDeclarations(a) + RenderDeclarations(b)
  {
    if a == [] {
      assert a + b == b;
    } else {
      assert (a + b)[0] == a[0] && (a + b)[1..] == a[1..] + b;
      RenderDeclarationsAppend(a[1..], b);
    }
  }

  /** A declaration is emitted exactly for each value that is kept, with
      that value, at most one per property, in the fixed order. */
  lemma ExtraDeclarationsMeaning(fontSize: string, backgroundColor: string, color: string)
    ensures var ds := ExtraDeclarations(fontSize, backgroundColor, color);
      && (Declaration("font-size", fontSize) in ds <==> Kept(fontSize, DEFAULT_FONT_SIZE))
      && (Declaration("background-color", backgroundColor) in ds <==> Kept(backgroundColor, DEFAULT_BACKGROUND_COLOR))
      && (Declaration("color", color) in ds <==> Kept(color, DEFAULT_COLOR))
      && (forall d :: d in ds ==>
            d == Declaration("font-size", fontSize) || d == Declaration("background-color", backgroundColor) ||
            d == Declaration("color", color))
      && (forall i, j :: 0 <= i < j < |ds| ==> PropertyRank(ds[i].property) < PropertyRank(ds[j].property))
  {
  }

  /** The result is empty exactly when every parsed value is empty or the
      default. */
  lemma AllDefaultsGiveEmpty(fontSize: string, backgroundColor: string, color: string)
    ensures RenderDeclarations(ExtraDeclarations(fontSize, backgroundColor, color)) == "" <==>
      !Kept(fontSize, DEFAULT_FONT_SIZE) && !Kept(backgroundColor, DEFAULT_BACKGROUND_COLOR) && !Kept(color, DEFAULT_COLOR)
  {
    var ds := ExtraDeclarations(fontSize, backgroundColor, color);
    if ds != [] {
      assert |RenderDeclarations(ds)| >= |RenderDeclaration(ds[0])| > 0;
    }
  }

  /** The first position of `c` in `s`. */
  function IndexOf(s: string, c: char): (r: Option<nat>)
    ensures r.Some? ==> r.value < |s| && s[r.value] == c && c !in s[..r.value]
    ensures r.None? ==> c !in s
  {
    if s == [] then None
    else if s[0] == c then Some(0)
    else match IndexOf(s[1..], c)
      case None => None
      case Some(k) =>
        assert s[..k + 1] == [s[0]] + s[1..][..k];
        Some(k + 1)
  }

  lemma {:induction false} IndexOfAfterPrefix(a: string, c: char, b: string)
    requires c !in a
    ensures IndexOf(a + [c] + b, c) == Some(|a|)
  {
    if a == [] {
      assert a + [c] + b == [c] + b;
    } else {
      assert (a + [c] + b)[0] == a[0];
      assert (a + [c] + b)[1..] == a[1..] + [c] + b;
      IndexOfAfterPrefix(a[1..], c, b);
    }
  }

  /** Reading one `property: value` chunk back. */
  function ParseDeclaration(chunk: string): Option<Declaration>
  {
    match IndexOf(chunk, ':')
    case None => None
    case Some(k) =>
      if k + 1 < |chunk| && chunk[k + 1] == ' ' then Some(Declaration(chunk[..k], chunk[k + 2..])) else None
  }

  /** Reading a run of `property: value;` declarations back. */
  function ParseDeclarations(s: string): Option<seq<Declaration>>
    decreases |s|
  {
    if s == [] then Some([])
    else match IndexOf(s, ';')
      case None => None
      case Some(k) =>
        match ParseDeclaration(s[..k])
        case None => None
        case Some(d) =>
          match ParseDeclarations(s[k + 1..])
          case None => None
          case Some(rest) => Some([d] + rest)
  }

  /** Property names without `:` or `;`, values without `;`. */
  predicate WellFormed(d: Declaration)
  {
    ':' !in d.property && ';' !in d.property && ';' !in d.value
  }

  /** Rendered declarations read back as the same declarations. */
  lemma {:induction false} RenderThenParse(ds: seq<Declaration>)
    requires forall i :: 0 <= i < |ds| ==> WellFormed(ds[i])
    ensures ParseDeclarations(RenderDeclarations(ds)) == Some(ds)
  {
    if ds != [] {
      var d := ds[0];
      var chunk := d.property + ": " + d.value;
      var rest := RenderDeclarations(ds[1..]);
      var s := RenderDeclarations(ds);
      assert s == chunk + [';'] + rest;
      assert ';' !in ": ";
      IndexOfAfterPrefix(chunk, ';', rest);
      assert s[..|chunk|] == chunk;
      assert s[|chunk| + 1..] == rest;
      assert chunk == d.property + [':'] + (" " + d.value);
      IndexOfAfterPrefix(d.property, ':', " " + d.value);
      assert chunk[|d.property| + 1] == ' ';
      assert chunk[..|d.property|] == d.property;
      assert chunk[|d.property| + 2..] == d.value;
      RenderThenParse(ds[1..]);
      assert [d] + ds[1..] == ds;
    }
  }

  /** What `getExtraStyles` returns is always a well-formed declaration
      list that reads back as exactly the kept declarations, provided the
      parsers never produce a `;`. */
  lemma ExtraStylesReadBack(fontSize: string, backgroundColor: string, color: string)
    requires ';' !in fontSize && ';' !in backgroundColor && ';' !in color
    ensures ParseDeclarations(RenderDeclarations(ExtraDeclarations(fontSize, backgroundColor, color)))
         == Some(ExtraDeclarations(fontSize, backgroundColor, color))
  {
    var ds := ExtraDeclarations(fontSize, backgroundColor, color);
    assert ':' !in "font-size" && ';' !in "font-size";
    assert ':' !in "background-color" && ';' !in "background-color";
    assert ':' !in "color" && ';' !in "color";
    assert forall i :: 0 <= i < |ds| ==> ds[i] in ds;
    RenderThenParse(ds);
  }

  /** An element of the exported DOM: whether it is an `HTMLElement`, and
      its attributes. */
  class DomElement {
    const isHTMLElement: bool
    var attributes: map<string, string>

    constructor (isHTMLElement: bool, attributes: map<string, string>)
      ensures this.isHTMLElement == isHTMLElement && this.attributes == attributes
    {
      this.isHTMLElement := isHTMLElement;
      this.attributes := attributes;
    }

    /** `el.getAttribute(name)`, `None` standing for `null`. */
    function GetAttribute(name: string): (r: Option<string>)
      reads this
      ensures r.Some? <==> name in attributes
      ensures r.Some? ==> r.value == attributes[name]
    {
      if name in attributes then Some(attributes[name]) else None
    }

    /** `el.removeAttribute(name)`. */
    method RemoveAttribute(name: string)
      modifies this
      ensures attributes == old(attributes) - {name}
    {
      attributes := attributes - {name};
    }
  }

  /** The selector `[style],[class],[dir="ltr"]`. */
  predicate MatchesExportSelector(attrs: map<string, string>)
  {
    "style" in attrs || "class" in attrs || ("dir" in attrs && attrs["dir"] == "ltr")
  }

  /** The attributes of one element after the loop body has run on it. */
  function StripAttributes(attrs: map<string, string>): (r: map<string, string>)
    ensures r.Keys <= attrs.Keys
    ensures !MatchesExportSelector(r)
  {
    var rest := attrs - {"class"} - {"style"};
    if "dir" in rest && rest["dir"] == "ltr" then rest - {"dir"} else rest
  }

  /** Stripping removes `class` and `style`, removes `dir` exactly when it
      is `"ltr"`, and keeps every other attribute with its value. */
  lemma StripAttributesMeaning(attrs: map<string, string>)
    ensures var r := StripAttributes(attrs);
      && "class" !in r && "style" !in r
      && (forall k :: k in r <==> k in attrs && k != "class" && k != "style" && !(k == "dir" && attrs[k] == "ltr"))
      && (forall k :: k in r ==> r[k] == attrs[k])
  {
  }

  /** Stripping twice is stripping once, and nothing stripped still
      matches the selector. */
  lemma StripIdempotent(attrs: map<string, string>)
    ensures StripAttributes(StripAttributes(attrs)) == StripAttributes(attrs)
    ensures !MatchesExportSelector(StripAttributes(attrs))
  {
    StripAttributesMeaning(attrs);
    StripAttributesMeaning(StripAttributes(attrs));
  }

  /** An element the selector does not match is left as it is by the loop
      body anyway; a `dir` other than `"ltr"` always stays. */
  lemma StripKeepsUnmatched(attrs: map<string, string>)
    ensures !MatchesExportSelector(attrs) ==> StripAttributes(attrs) == attrs
    ensures "dir" in attrs && attrs["dir"] != "ltr" ==> "dir" in StripAttributes(attrs) && StripAttributes(attrs)["dir"] == attrs["dir"]
  {
    StripAttributesMeaning(attrs);
    if !MatchesExportSelector(attrs) {
      assert StripAttributes(attrs).Keys == attrs.Keys;
    }
  }

  /** `element.querySelectorAll(...)` over the element's descendants, in
      document order, matched against their attributes at call time. */
  function QuerySelectorAll(descendants: seq<DomElement>): (r: seq<DomElement>)
    reads descendants
    ensures forall i :: 0 <= i < |r| ==> r[i] in descendants && MatchesExportSelector(r[i].attributes)
    ensures forall j :: 0 <= j < |descendants| && MatchesExportSelector(descendants[j].attributes) ==> descendants[j] in r
  {
    if descendants == [] then []
    else
      var rest := QuerySelectorAll(descendants[1..]);
      assert forall j :: 1 <= j < |descendants| ==> descendants[j] == descendants[1..][j - 1];
      if MatchesExportSelector(descendants[0].attributes) then [descendants[0]] + rest else rest
  }

  /** The loop body of `removeStylesExportDOM` on one element. */
  method StripElement(el: DomElement)
    modifies el
    ensures el.attributes == StripAttributes(old(el.attributes))
  {
    el.RemoveAttribute("class");
    el.RemoveAttribute("style");
    if el.GetAttribute("dir") == Some("ltr") {
      el.RemoveAttribute("dir");
    }
  }

  /** The loop of `removeStylesExportDOM` over `[output.element, ...matches]`.
      An element listed twice is stripped twice, which is the same as once. */
  method StripEach(els: seq<DomElement>)
    modifies els
    ensures forall k :: 0 <= k < |els| ==> els[k].attributes == StripAttributes(old(els[k].attributes))
  {
    var i := 0;
    while i < |els|
      invariant 0 <= i <= |els|
      invariant forall k :: 0 <= k < i ==> els[k].attributes == StripAttributes(old(els[k].attributes))
      invariant forall k :: 0 <= k < |els| ==>
        els[k].attributes == old(els[k].attributes) || els[k].attributes == StripAttributes(old(els[k].attributes))
    {
      StripIdempotent(old(els[i].attributes));
      StripElement(els[i]);
      i := i + 1;
    }
  }

  /** `removeStylesExportDOM` on the output of `exportDOM`, whose element
      is `element` (`null` when there is none) with descendants
      `descendants`. When the element is an `HTMLElement`, it and every
      descendant end up stripped; otherwise nothing changes. */
  method RemoveStylesExportDOM(element: DomElement?, descendants: seq<DomElement>)
    modifies element, descendants
    ensures element != null && element.isHTMLElement ==>
      element.attributes == StripAttributes(old(element.attributes)) &&
      forall d :: d in descendants ==> d.attributes == StripAttributes(old(d.attributes))
    ensures element == null || !element.isHTMLElement ==> unchanged(descendants)
    ensures element != null && !element.isHTMLElement ==> unchanged(element)
  {
    if element != null && element.isHTMLElement {
      var matches := QuerySelectorAll(descendants);
      var els := [element] + matches;
      assert forall k :: 0 <= k < |matches| ==> matches[k] in descendants;
      StripEach(els);
      assert els[0] == element;
      forall d | d in descendants
        ensures d.attributes == StripAttributes(old(d.attributes))
      {
        StripKeepsUnmatched(old(d.attributes));
        if d in els {
          var k :| 0 <= k < |els| && els[k] == d;
        }
      }
    }
  }
}
