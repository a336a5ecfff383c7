/**
  The HTML renderer, and what its output says to a reader of HTML: well-nested markup over
  the known elements whose text and images are those of the document, in order.
 */
module Rendering {
  import opened Common
  import opened RichText
  import opened Html

  function EscapeChar(c: char, quote: bool): string {
    if c == '&' then "&amp;"
    else if c == '<' then "&lt;"
    else if c == '>' then "&gt;"
    else if quote && c == '"' then "&quot;"
    else if quote && c == '\'' then "&#x27;"
    else [c]
  }

  /** `html.escape`. */
  function Escape(s: string, quote: bool): string {
    if s == "" then "" else EscapeChar(s[0], quote) + Escape(s[1..], quote)
  }

  function Element(name: string, attributes: string, inner: string): string {
    "<" + (name + attributes) + ">" + inner + ("<" + ("/" + name) + ">")
  }

  function VoidElement(name: string, attributes: string): string {
    "<" + (name + attributes) + ">"
  }

  function Attribute(key: string, value: string): string {
    " " + key + "=\"" + value + "\""
  }

  function Decimal(n: nat): string {
    (if n < 10 then "" else Decimal(n / 10)) + ["0123456789"[n % 10]]
  }

  function LinkAttributes(lib: Library, href: string): Option<string> {
    var scheme := lib.scheme(href);
    if scheme.None? then None
    else Some(Attribute("href", Escape(href, true)) +
              if scheme.value in {"http", "https"}
              then Attribute("target", "_blank") + Attribute("rel", "noopener noreferrer") else "")
  }

  function WrapMark(lib: Library, mark: Json, inner: string): Option<string> {
    if !mark.Obj? || "type" !in mark.fields then None
    else if TypeOf(mark) == Str("bold") then Some(Element("strong", "", inner))
    else if TypeOf(mark) == Str("italic") then Some(Element("em", "", inner))
    else if TypeOf(mark) == Str("underline") then Some(Element("u", "", inner))
    else
      var attrs := Get(mark, "attrs");
      if !attrs.Obj? || !IsHref(lib, Get(attrs, "href")) then None
      else
        var attributes := LinkAttributes(lib, Get(attrs, "href").s);
        if attributes.None? then None else Some(Element("a", attributes.value, inner))
  }

  /** Every mark wraps what the marks before it made. */
  function WrapMarks(lib: Library, marks: seq<Json>, inner: string): Option<string> {
    if marks == [] then Some(inner)
    else
      var wrapped := WrapMarks(lib, marks[..|marks| - 1], inner);
      if wrapped.None? then None else WrapMark(lib, marks[|marks| - 1], wrapped.value)
  }

  function RenderText(lib: Library, j: Json): Option<string>
    requires j.Obj?
  {
    if !Get(j, "text").Str? || !GetList(j, "marks").List? then None
    else WrapMarks(lib, GetList(j, "marks").items, Escape(Get(j, "text").s, false))
  }

  // `attrs.get(key) or ""`, for a key whose value is a string or null.
  function TextAttr(j: Json, key: string): string
    requires j.Obj?
  {
    if Get(j, key).Str? then Get(j, key).s else ""
  }

  function ImageAttributes(id: Uuid, alt: string): string {
    Attribute("src", MEDIA_PATH + id) + (Attribute("alt", Escape(alt, true)) + Attribute("loading", "lazy"))
  }

  function Figure(image: string, caption: string): string {
    Element("figure", "", image + if caption == "" then "" else Element("figcaption", "", Escape(caption, true)))
  }

  function RenderImage(lib: Library, j: Json): Option<string>
    requires j.Obj?
  {
    var attrs := Get(j, "attrs");
    if !attrs.Obj? || lib.uuid(Get(attrs, "media_id")).None? then None
    else
      var id := lib.uuid(Get(attrs, "media_id")).value;
      var image := VoidElement("img", ImageAttributes(id, TextAttr(attrs, "alt")));
      Some(Figure(image, TextAttr(attrs, "caption")))
  }

  /** The start number of an ordered list; an explicit null `attrs` is an error. */
  function ListStart(j: Json): Option<int>
    requires j.Obj?
  {
    if "attrs" !in j.fields then Some(1)
    else
      var attrs := j.fields["attrs"];
      if !attrs.Obj? then None
      else if "start" !in attrs.fields then Some(1) else Integer(attrs.fields["start"])
  }

  function RenderContainer(j: Json, t: string, inner: string): Option<string>
    requires j.Obj?
  {
    if t == "paragraph" then Some(Element("p", "", inner))
    else if t == "heading" then
      var attrs := Get(j, "attrs");
      if !attrs.Obj? || Level(Get(attrs, "level")).None? then None
      else Some(Element("h" + Decimal(Level(Get(attrs, "level")).value), "", inner))
    else if t == "blockquote" then Some(Element("blockquote", "", inner))
    else if t == "bulletList" then Some(Element("ul", "", inner))
    else if t == "orderedList" then
      var start := ListStart(j);
      if start.None? || start.value < 0 then None
      else Some(Element("ol", if start.value == 1 then "" else Attribute("start", Decimal(start.value)), inner))
    else if t == "listItem" then Some(Element("li", "", inner))
    else None
  }

  /** The HTML of a node; none when the renderer raises. */
  function RenderNode(lib: Library, j: Json): Option<string>
    decreases j
  {
    if !j.Obj? || !TypeOf(j).Str? then None
    else
      var t := TypeOf(j).s;
      if t == "text" then RenderText(lib, j)
      else if t == "image" then RenderImage(lib, j)
      else if t == "horizontalRule" then Some(VoidElement("hr", ""))
      else if t == "hardBreak" then Some(VoidElement("br", ""))
      else
        var inner := if Children(j) == [] then Some("") else RenderAll(lib, Children(j));
        if inner.None? then None else RenderContainer(j, t, inner.value)
  }

  function RenderAll(lib: Library, js: seq<Json>): Option<string>
    decreases js
  {
    if js == [] then Some("")
    else
      var before := RenderAll(lib, js[..|js| - 1]);
      var last := RenderNode(lib, js[|js| - 1]);
      if before.None? || last.None? then None else Some(before.value + last.value)
  }

  function RenderDocument(lib: Library, document: Json): Option<string> {
    RenderAll(lib, Children(document))
  }

  // ---------- what the document says ----------

  /** Text and captions, in document order. */
  function PlainText(j: Json): string
    decreases j
  {
    if HasType(j, {"text"}) && Get(j, "text").Str? then Get(j, "text").s
    else if HasType(j, {"image"}) && Get(j, "attrs").Obj? then TextAttr(Get(j, "attrs"), "caption")
    else if Children(j) == [] then "" else PlainTextAll(Children(j))
  }

  function PlainTextAll(js: seq<Json>): string
    decreases js
  {
    if js == [] then "" else PlainTextAll(js[..|js| - 1]) + PlainText(js[|js| - 1])
  }

  /** The media the images show, in document order. */
  function Images(lib: Library, j: Json): seq<Uuid>
    decreases j
  {
    if HasType(j, {"image"}) && Get(j, "attrs").Obj? && lib.uuid(Get(Get(j, "attrs"), "media_id")).Some?
    then [lib.uuid(Get(Get(j, "attrs"), "media_id")).value]
    else if Children(j) == [] then [] else ImagesAll(lib, Children(j))
  }

  function ImagesAll(lib: Library, js: seq<Json>): seq<Uuid>
    decreases js
  {
    if js == [] then [] else ImagesAll(lib, js[..|js| - 1]) + Images(lib, js[|js| - 1])
  }

  predicate IsLink(mark: Json) {
    HasType(mark, {"link"}) && Get(mark, "attrs").Obj? && Get(Get(mark, "attrs"), "href").Str?
  }

  /** The links of a text, outermost first: each mark wraps those before it. */
  function Links(marks: seq<Json>): seq<Shown> {
    if marks == [] then []
    else (if IsLink(marks[|marks| - 1]) then [Link(Get(Get(marks[|marks| - 1], "attrs"), "href").s)] else []) + Links(marks[..|marks| - 1])
  }

  /** Pictures with their alternative text, and links with their targets, in document order. */
  function Shows(lib: Library, j: Json): seq<Shown>
    decreases j
  {
    if HasType(j, {"text"}) then if GetList(j, "marks").List? then Links(GetList(j, "marks").items) else []
    else if HasType(j, {"image"}) && Get(j, "attrs").Obj? && lib.uuid(Get(Get(j, "attrs"), "media_id")).Some?
    then [Picture(lib.uuid(Get(Get(j, "attrs"), "media_id")).value, TextAttr(Get(j, "attrs"), "alt"))]
    else if Children(j) == [] then [] else ShowsAll(lib, Children(j))
  }

  function ShowsAll(lib: Library, js: seq<Json>): seq<Shown>
    decreases js
  {
    if js == [] then [] else ShowsAll(lib, js[..|js| - 1]) + Shows(lib, js[|js| - 1])
  }

  /** Somewhere an ordered list has `attrs` that are explicitly null. */
  predicate NullStart(j: Json)
    decreases j
  {
    || (HasType(j, {"orderedList"}) && "attrs" in j.fields && j.fields["attrs"].Null?)
    || (Children(j) != [] && exists c | c in Children(j) :: NullStart(c))
  }

  // ---------- fragments ----------

  lemma OneToken(s: string, token: Token)
    requires Head(s) == Some((token, |s|))
    ensures Scan(s) == Some([token])
  {
    LexOne(Head, s);
  }

  lemma ReferenceReads(c: char)
    requires c in "&<>\"'"
    ensures Reference(EscapeChar(c, true)) == Some((c, |EscapeChar(c, true)|))
  {
    var s := EscapeChar(c, true);
    assert s[..|s|] == s;
    if c !in "&<" { DiffersAtOne(s, "&lt;"); }
    if c !in "&<>" { DiffersAtOne(s, "&amp;"); DiffersAtOne(s, "&gt;"); }
    if c == '\'' { DiffersAtOne(s, "&quot;"); }
  }

  lemma EscapeCharReads(c: char, quote: bool)
    ensures Scan(EscapeChar(c, quote)) == Some([Ch(c)])
  {
    var s := EscapeChar(c, quote);
    if |s| > 1 { ReferenceReads(c); }
    OneToken(s, Ch(c));
  }

  lemma CharReads(html: string, c: char)
    requires Scan(html) == Some([Ch(c)])
    ensures Reads(html, [c], [])
  {
    FlatMapOne(CharOf, Ch(c));
    FlatMapOne(ShownBy, Ch(c));
    forall open ensures Nest([Ch(c)], open) == Some(open) { NestOne(Ch(c), open); }
  }

  lemma EmptyReads()
    ensures Reads("", "", [])
  {
  }

  lemma {:induction false} EscapeReads(s: string, quote: bool)
    ensures Reads(Escape(s, quote), s, [])
  {
    if s == "" {
      EmptyReads();
    } else {
      EscapeCharReads(s[0], quote);
      CharReads(EscapeChar(s[0], quote), s[0]);
      EscapeReads(s[1..], quote);
      ReadsConcat(EscapeChar(s[0], quote), [s[0]], [], Escape(s[1..], quote), s[1..], []);
      assert [s[0]] + s[1..] == s;
    }
  }

  // Characters that would end a value, a tag or a reference.
  predicate Inert(s: string) {
    '"' !in s && '<' !in s && '>' !in s
  }

  lemma {:induction false} EscapeInert(s: string)
    ensures Inert(Escape(s, true))
  {
    if s != "" { EscapeInert(s[1..]); }
  }

  lemma TagScans(body: string)
    requires '<' !in body && '>' !in body
    ensures Scan("<" + body + ">") == Some([Tag(body)])
  {
    var s := "<" + body + ">";
    IndexOfIs(s, '>', |body| + 1);
    assert s[1..|body| + 1] == body && s[|body| + 2..] == "";
    OneToken(s, Tag(body));
  }

  // Where the key, the quotes and the value of an attribute are.
  lemma AttributeLayout(key: string, value: string, rest: string)
    ensures var a := Attribute(key, value) + rest;
            && |a| >= |key| + 4 && a[0] == ' ' && a[1..|key| + 1] == key && a[|key| + 1] == '=' && a[|key| + 2] == '"'
            && a[|key| + 3..] == value + "\"" + rest
  {
  }

  lemma ClosingQuote(value: string, rest: string)
    requires '"' !in value
    ensures IndexOf(value + "\"" + rest, '"') == |value|
  {
    IndexOfIs(value + "\"" + rest, '"', |value|);
  }

  lemma KeyEnds(key: string, a: string)
    requires '=' !in key && |a| >= |key| + 2 && a[0] == ' ' && a[1..|key| + 1] == key && a[|key| + 1] == '='
    ensures IndexOf(a, '=') == |key| + 1
  {
    forall i | 0 <= i < |key| + 1 ensures a[i] != '=' {
      if i > 0 { assert a[i] == a[1..|key| + 1][i - 1]; }
    }
    IndexOfIs(a, '=', |key| + 1);
  }

  lemma AttributeParses(keys: set<string>, key: string, value: string, rest: string)
    requires key in keys && '=' !in key && '"' !in value
    ensures AttributeLength(keys, Attribute(key, value) + rest) == Some(|Attribute(key, value)|)
  {
    AttributeLayout(key, value, rest);
    KeyEnds(key, Attribute(key, value) + rest);
    ClosingQuote(value, rest);
  }

  lemma AttributeWellFormed(keys: set<string>, key: string, value: string, rest: string)
    requires key in keys && '=' !in key && '"' !in value && WellFormedAttributes(keys, rest)
    ensures WellFormedAttributes(keys, Attribute(key, value) + rest)
  {
    AttributeParses(keys, key, value, rest);
    assert (Attribute(key, value) + rest)[|Attribute(key, value)|..] == rest;
  }

  // The name in a tag body that goes on with attributes.
  lemma NameOf(name: string, attributes: string)
    requires ' ' !in name && (attributes == "" || attributes[0] == ' ')
    ensures (name + attributes)[..IndexOf(name + attributes, ' ')] == name
    ensures (name + attributes)[IndexOf(name + attributes, ' ')..] == attributes
  {
    var body := name + attributes;
    if attributes == "" {
      assert body == name;
    } else {
      IndexOfIs(body, ' ', |name|);
    }
  }

  predicate Bare(name: string) {
    name != "" && name[0] != '/' && forall c | c in name :: c !in " <>"
  }

  lemma NamesAreBare()
    ensures forall name | name in ELEMENTS + VOID_ELEMENTS :: Bare(name)
  {
  }

  // Attributes that a tag may carry after its name.
  predicate Attributes(a: string) {
    (a == "" || a[0] == ' ') && '<' !in a && '>' !in a && WellFormedAttributes(ATTRIBUTES, a)
  }

  lemma ElementsAreNotVoid()
    ensures ELEMENTS !! VOID_ELEMENTS
  {
  }

  lemma OpeningTag(name: string, attributes: string, open: seq<string>)
    requires Bare(name) && (attributes == "" || attributes[0] == ' ')
    ensures Apply(Tag(name + attributes), open) == Open(name, attributes, open)
    ensures ShownBy(Tag(name + attributes)) == ShownByTag(name, attributes)
  {
    NameOf(name, attributes);
  }

  lemma ClosingTag(name: string, open: seq<string>)
    ensures Apply(Tag("/" + name), [name] + open) == Some(open)
    ensures ShownBy(Tag("/" + name)) == []
  {
    var body := "/" + name;
    assert body[1..] == name && ([name] + open)[1..] == open;
    assert body[..IndexOf(body, ' ')][0] == '/';
  }

  // An opening tag, balanced tokens and the closing tag are balanced.
  lemma WrapBalanced(o: Token, ts: seq<Token>, c: Token, name: string)
    requires Balanced(ts)
    requires forall open :: Apply(o, open) == Some([name] + open)
    requires forall open :: Apply(c, [name] + open) == Some(open)
    ensures Balanced([o] + ts + [c])
  {
    assert [o] + ts + [c] == [o] + (ts + [c]);
    forall open ensures Nest([o] + ts + [c], open) == Some(open) {
      NestCons(o, ts + [c], open);
      NestConcat(ts, [c], [name] + open);
      NestOne(c, [name] + open);
    }
  }

  lemma WrapReads(o: string, inner: string, c: string, name: string, text: string, shown: seq<Shown>)
    requires Reads(inner, text, shown)
    requires '<' !in o && '>' !in o && '<' !in c && '>' !in c
    requires forall open :: Apply(Tag(o), open) == Some([name] + open)
    requires forall open :: Apply(Tag(c), [name] + open) == Some(open)
    requires ShownBy(Tag(c)) == []
    ensures Reads("<" + o + ">" + inner + ("<" + c + ">"), text, ShownBy(Tag(o)) + shown)
  {
    var ts := Scan(inner).value;
    TagScans(o);
    TagScans(c);
    ScanConcat("<" + o + ">", inner);
    ScanConcat("<" + o + ">" + inner, "<" + c + ">");
    WrapBalanced(Tag(o), ts, Tag(c), name);
    FlatMapConcat(CharOf, [Tag(o)], ts);
    FlatMapConcat(CharOf, [Tag(o)] + ts, [Tag(c)]);
    FlatMapConcat(ShownBy, [Tag(o)], ts);
    FlatMapConcat(ShownBy, [Tag(o)] + ts, [Tag(c)]);
    TagAlone(Tag(o));
    TagAlone(Tag(c));
  }

  lemma TagAlone(t: Token)
    requires t.Tag?
    ensures TextOf([t]) == "" && ShownIn([t]) == ShownBy(t)
    ensures forall open :: Nest([t], open) == Apply(t, open)
  {
    FlatMapOne(CharOf, t);
    FlatMapOne(ShownBy, t);
    forall open ensures Nest([t], open) == Apply(t, open) { NestOne(t, open); }
  }

  lemma ElementReads(name: string, attributes: string, inner: string, text: string, shown: seq<Shown>)
    requires name in ELEMENTS && Attributes(attributes) && Reads(inner, text, shown)
    ensures Reads(Element(name, attributes, inner), text, ShownByTag(name, attributes) + shown)
    ensures name != "a" ==> Reads(Element(name, attributes, inner), text, shown)
  {
    NamesAreBare();
    ElementsAreNotVoid();
    forall open ensures Apply(Tag(name + attributes), open) == Some([name] + open) { OpeningTag(name, attributes, open); }
    forall open ensures Apply(Tag("/" + name), [name] + open) == Some(open) { ClosingTag(name, open); }
    OpeningTag(name, attributes, []);
    ClosingTag(name, []);
    WrapReads(name + attributes, inner, "/" + name, name, text, shown);
    assert name != "img" && [] + shown == shown;
  }

  lemma VoidReads(name: string, attributes: string)
    requires name in VOID_ELEMENTS && Attributes(attributes)
    ensures Reads(VoidElement(name, attributes), "", ShownByTag(name, attributes))
  {
    NamesAreBare();
    OpeningTag(name, attributes, []);
    var t := Tag(name + attributes);
    TagScans(name + attributes);
    TagAlone(t);
    forall open ensures Apply(t, open) == Some(open) { OpeningTag(name, attributes, open); }
  }

  // ---------- from documents to markup ----------

  predicate Key(key: string) {
    key in ATTRIBUTES && '=' !in key && '<' !in key && '>' !in key
  }

  lemma KeysAreFine()
    ensures Key("href") && Key("target") && Key("rel") && Key("src") && Key("alt") && Key("loading") && Key("start")
  {
  }

  lemma NoAngles(a: string, b: string)
    requires '<' !in a && '>' !in a && '<' !in b && '>' !in b
    ensures '<' !in a + b && '>' !in a + b
  {
  }

  lemma AttributeInert(key: string, value: string)
    requires Key(key) && Inert(value)
    ensures '<' !in Attribute(key, value) && '>' !in Attribute(key, value)
  {
    NoAngles(" ", key);
    NoAngles(" " + key, "=\"");
    NoAngles(" " + key + "=\"", value);
    NoAngles(" " + key + "=\"" + value, "\"");
  }

  lemma JoinsAttributes(a: string, rest: string)
    requires a != "" && a[0] == ' ' && '<' !in a && '>' !in a && Attributes(rest)
    requires WellFormedAttributes(ATTRIBUTES, a + rest)
    ensures Attributes(a + rest)
  {
    NoAngles(a, rest);
    assert (a + rest)[0] == a[0];
  }

  lemma AttributeJoins(key: string, value: string, rest: string)
    requires Key(key) && Inert(value) && Attributes(rest)
    ensures Attributes(Attribute(key, value) + rest)
  {
    AttributeWellFormed(ATTRIBUTES, key, value, rest);
    AttributeInert(key, value);
    JoinsAttributes(Attribute(key, value), rest);
  }

  lemma OneAttribute(key: string, value: string)
    requires Key(key) && Inert(value)
    ensures Attributes(Attribute(key, value))
  {
    AttributeJoins(key, value, "");
    assert Attribute(key, value) + "" == Attribute(key, value);
  }

  lemma ThreeAttributes(k: string, v: string, l: string, w: string, m: string, x: string)
    requires Key(k) && Inert(v) && Key(l) && Inert(w) && Key(m) && Inert(x)
    ensures Attributes(Attribute(k, v) + (Attribute(l, w) + Attribute(m, x)))
  {
    OneAttribute(m, x);
    AttributeJoins(l, w, Attribute(m, x));
    AttributeJoins(k, v, Attribute(l, w) + Attribute(m, x));
  }

  lemma LinkAttributesFine(lib: Library, href: string)
    requires lib.scheme(href).Some?
    ensures LinkAttributes(lib, href).Some? && Attributes(LinkAttributes(lib, href).value)
  {
    KeysAreFine();
    EscapeInert(href);
    ThreeAttributes("href", Escape(href, true), "target", "_blank", "rel", "noopener noreferrer");
    AttributeJoins("href", Escape(href, true), "");
  }

  // ---------- attribute values ----------

  lemma ValueHere(key: string, value: string, rest: string)
    requires Key(key) && '"' !in value
    ensures ValueOf(ATTRIBUTES, Attribute(key, value) + rest, key) == Some(Decode(value))
  {
    AttributeParses(ATTRIBUTES, key, value, rest);
    AttributeParts(key, value, rest);
  }

  // Where the key and the value are.
  lemma AttributeParts(key: string, value: string, rest: string)
    requires Key(key)
    ensures var a := Attribute(key, value) + rest;
            && IndexOf(a, '=') == |key| + 1 && a[1..|key| + 1] == key
            && a[|key| + 3..|Attribute(key, value)| - 1] == value && a[|Attribute(key, value)|..] == rest
  {
    IndexOfIs(Attribute(key, value) + rest, '=', |key| + 1);
  }

  lemma ValueLater(key: string, value: string, rest: string, later: string)
    requires Key(key) && '"' !in value && later != key
    ensures ValueOf(ATTRIBUTES, Attribute(key, value) + rest, later) == ValueOf(ATTRIBUTES, rest, later)
  {
    AttributeParses(ATTRIBUTES, key, value, rest);
    AttributeParts(key, value, rest);
  }

  lemma DecodeEscaped(s: string, quote: bool)
    ensures Decode(Escape(s, quote)) == s
  {
    EscapeReads(s, quote);
  }

  lemma {:induction false} NothingToEscape(s: string)
    requires '&' !in s && '<' !in s && '>' !in s
    ensures Escape(s, false) == s
  {
    if s != "" { NothingToEscape(s[1..]); }
  }

  /** A reader finds the very target that the document gives, whatever characters it has. */
  lemma LinkShown(lib: Library, href: string)
    requires lib.scheme(href).Some?
    ensures ShownByTag("a", LinkAttributes(lib, href).value) == [Link(href)]
  {
    KeysAreFine();
    EscapeInert(href);
    DecodeEscaped(href, true);
    var rest := if lib.scheme(href).value in {"http", "https"}
                then Attribute("target", "_blank") + Attribute("rel", "noopener noreferrer") else "";
    ValueHere("href", Escape(href, true), rest);
  }

  lemma LinkWraps(lib: Library, mark: Json, inner: string) returns (attributes: string)
    requires IsMark(lib, mark) && TypeOf(mark) == Str("link")
    ensures WrapMark(lib, mark, inner) == Some(Element("a", attributes, inner)) && Attributes(attributes)
    ensures ShownByTag("a", attributes) == [Link(Get(Get(mark, "attrs"), "href").s)]
    ensures lib.scheme(Get(Get(mark, "attrs"), "href").s).Some?
    ensures LinkAttributes(lib, Get(Get(mark, "attrs"), "href").s) == Some(attributes)
  {
    var href := Get(Get(mark, "attrs"), "href").s;
    LinkAttributesFine(lib, href);
    LinkShown(lib, href);
    attributes := LinkAttributes(lib, href).value;
  }

  lemma LinkReads(lib: Library, mark: Json, inner: string, text: string, shown: seq<Shown>)
    requires IsMark(lib, mark) && TypeOf(mark) == Str("link") && Reads(inner, text, shown)
    ensures WrapMark(lib, mark, inner).Some? && Reads(WrapMark(lib, mark, inner).value, text, Links([mark]) + shown)
  {
    var attributes := LinkWraps(lib, mark, inner);
    ElementReads("a", attributes, inner, text, shown);
    OneLink(mark);
    assert IsLink(mark) by { LinkHasTarget(lib, mark); }
  }

  lemma LinkHasTarget(lib: Library, mark: Json)
    requires IsMark(lib, mark)
    ensures IsLink(mark) <==> TypeOf(mark) == Str("link")
  {
  }

  lemma OneLink(mark: Json)
    ensures Links([mark]) == if IsLink(mark) then [Link(Get(Get(mark, "attrs"), "href").s)] else []
  {
    assert [mark][..0] == [];
  }

  lemma PlainMarkWraps(lib: Library, mark: Json, inner: string) returns (name: string)
    requires IsMark(lib, mark) && TypeOf(mark) != Str("link")
    ensures name == "strong" || name == "em" || name == "u"
    ensures WrapMark(lib, mark, inner) == Some(Element(name, "", inner))
  {
    var t := TypeOf(mark).s;
    name := if t == "bold" then "strong" else if t == "italic" then "em" else "u";
  }

  lemma PlainMarkReads(name: string, inner: string, text: string, shown: seq<Shown>)
    requires (name == "strong" || name == "em" || name == "u") && Reads(inner, text, shown)
    ensures Reads(Element(name, "", inner), text, shown)
  {
    ElementReads(name, "", inner, text, shown);
  }

  lemma MarkReads(lib: Library, mark: Json, inner: string, text: string, shown: seq<Shown>)
    requires IsMark(lib, mark) && Reads(inner, text, shown)
    ensures WrapMark(lib, mark, inner).Some? && Reads(WrapMark(lib, mark, inner).value, text, Links([mark]) + shown)
  {
    LinkHasTarget(lib, mark);
    if TypeOf(mark) == Str("link") {
      LinkReads(lib, mark, inner, text, shown);
    } else {
      OneLink(mark);
      assert Links([mark]) + shown == shown;
      var name := PlainMarkWraps(lib, mark, inner);
      PlainMarkReads(name, inner, text, shown);
    }
  }

  lemma {:induction false} MarksRead(lib: Library, marks: seq<Json>, inner: string, text: string)
    requires (forall m | m in marks :: IsMark(lib, m)) && Reads(inner, text, [])
    ensures WrapMarks(lib, marks, inner).Some? && Reads(WrapMarks(lib, marks, inner).value, text, Links(marks))
  {
    if marks != [] {
      var before, last := marks[..|marks| - 1], marks[|marks| - 1];
      MarksRead(lib, before, inner, text);
      MarkReads(lib, last, WrapMarks(lib, before, inner).value, text, Links(before));
      LinksNext(marks);
    }
  }

  lemma LinksNext(marks: seq<Json>)
    requires marks != []
    ensures Links(marks) == Links([marks[|marks| - 1]]) + Links(marks[..|marks| - 1])
  {
    assert [marks[|marks| - 1]][..0] == [];
  }

  lemma TextReads(lib: Library, j: Json)
    requires j.Obj? && IsText(lib, j)
    ensures RenderText(lib, j).Some? && Reads(RenderText(lib, j).value, Get(j, "text").s, Links(GetList(j, "marks").items))
  {
    EscapeReads(Get(j, "text").s, false);
    MarksRead(lib, GetList(j, "marks").items, Escape(Get(j, "text").s, false), Get(j, "text").s);
  }

  lemma MediaUrlInert(id: Uuid)
    ensures Inert(MEDIA_PATH + id)
  {
    assert Inert(MEDIA_PATH) && Inert(id);
  }

  lemma ImageAttributesFine(id: Uuid, alt: string)
    ensures Attributes(ImageAttributes(id, alt))
  {
    KeysAreFine();
    EscapeInert(alt);
    MediaUrlInert(id);
    ThreeAttributes("src", MEDIA_PATH + id, "alt", Escape(alt, true), "loading", "lazy");
  }

  lemma MediaUrlDecodes(id: Uuid)
    ensures Decode(MEDIA_PATH + id) == MEDIA_PATH + id
  {
    assert '&' !in MEDIA_PATH && '&' !in id;
    MediaUrlInert(id);
    NothingToEscape(MEDIA_PATH + id);
    DecodeEscaped(MEDIA_PATH + id, false);
  }

  /** A reader finds the picture's media id and its alternative text. */
  lemma ImageShown(id: Uuid, alt: string)
    ensures ShownByTag("img", ImageAttributes(id, alt)) == [Picture(id, alt)]
  {
    KeysAreFine();
    MediaUrlInert(id);
    MediaUrlDecodes(id);
    EscapeInert(alt);
    DecodeEscaped(alt, true);
    var lazy := Attribute("loading", "lazy");
    ValueHere("src", MEDIA_PATH + id, Attribute("alt", Escape(alt, true)) + lazy);
    ValueLater("src", MEDIA_PATH + id, Attribute("alt", Escape(alt, true)) + lazy, "alt");
    ValueHere("alt", Escape(alt, true), lazy);
    assert (MEDIA_PATH + id)[..|MEDIA_PATH|] == MEDIA_PATH && (MEDIA_PATH + id)[|MEDIA_PATH|..] == id;
  }

  lemma FigureReads(image: string, shown: seq<Shown>, caption: string)
    requires Reads(image, "", shown)
    ensures Reads(Figure(image, caption), caption, shown)
  {
    if caption == "" {
      assert image + "" == image;
      ElementReads("figure", "", image, "", shown);
    } else {
      EscapeReads(caption, true);
      var figcaption := Element("figcaption", "", Escape(caption, true));
      ElementReads("figcaption", "", Escape(caption, true), caption, []);
      ReadsConcat(image, "", shown, figcaption, caption, []);
      assert "" + caption == caption && shown + [] == shown;
      ElementReads("figure", "", image + figcaption, caption, shown);
    }
  }

  lemma ImageReads(lib: Library, j: Json)
    requires j.Obj? && IsImage(lib, j)
    ensures RenderImage(lib, j).Some?
    ensures var attrs := Get(j, "attrs");
            Reads(RenderImage(lib, j).value, TextAttr(attrs, "caption"),
                  [Picture(lib.uuid(Get(attrs, "media_id")).value, TextAttr(attrs, "alt"))])
  {
    var attrs := Get(j, "attrs");
    var id, alt := lib.uuid(Get(attrs, "media_id")).value, TextAttr(attrs, "alt");
    ImageAttributesFine(id, alt);
    ImageShown(id, alt);
    VoidReads("img", ImageAttributes(id, alt));
    FigureReads(VoidElement("img", ImageAttributes(id, alt)), [Picture(id, alt)], TextAttr(attrs, "caption"));
  }

  lemma {:induction false} DecimalInert(n: nat)
    ensures Inert(Decimal(n))
  {
    if n >= 10 { DecimalInert(n / 10); }
  }

  lemma HeadingName(level: nat)
    requires 1 <= level <= 6
    ensures "h" + Decimal(level) in ELEMENTS
  {
    assert "h" + Decimal(level) == ["h1", "h2", "h3", "h4", "h5", "h6"][level - 1];
  }

  lemma HeadingReads(j: Json, inner: string, text: string, shown: seq<Shown>)
    requires j.Obj? && ContainerFrame(j, "heading") && Reads(inner, text, shown)
    ensures RenderContainer(j, "heading", inner).Some? && Reads(RenderContainer(j, "heading", inner).value, text, shown)
  {
    var level := Level(Get(Get(j, "attrs"), "level")).value;
    HeadingName(level);
    ElementReads("h" + Decimal(level), "", inner, text, shown);
  }

  lemma OrderedListReads(j: Json, inner: string, text: string, shown: seq<Shown>)
    requires j.Obj? && ContainerFrame(j, "orderedList") && Reads(inner, text, shown)
    ensures RenderContainer(j, "orderedList", inner).None? <==> "attrs" in j.fields && j.fields["attrs"].Null?
    ensures RenderContainer(j, "orderedList", inner).Some? ==> Reads(RenderContainer(j, "orderedList", inner).value, text, shown)
  {
    var start := ListStart(j);
    if start.Some? {
      KeysAreFine();
      DecimalInert(start.value);
      OneAttribute("start", Decimal(start.value));
      ElementReads("ol", if start.value == 1 then "" else Attribute("start", Decimal(start.value)), inner, text, shown);
    }
  }

  lemma PlainContainerReads(j: Json, t: string, inner: string, text: string, shown: seq<Shown>)
    requires j.Obj? && t in {"paragraph", "blockquote", "bulletList", "listItem"} && Reads(inner, text, shown)
    ensures RenderContainer(j, t, inner).Some? && Reads(RenderContainer(j, t, inner).value, text, shown)
  {
    if t == "paragraph" { ElementReads("p", "", inner, text, shown); }
    else if t == "blockquote" { ElementReads("blockquote", "", inner, text, shown); }
    else if t == "bulletList" { ElementReads("ul", "", inner, text, shown); }
    else { ElementReads("li", "", inner, text, shown); }
  }

  lemma ContainerReads(j: Json, t: string, inner: string, text: string, shown: seq<Shown>)
    requires j.Obj? && TypeOf(j) == Str(t) && t in CONTAINER_TYPES && ContainerFrame(j, t) && Reads(inner, text, shown)
    ensures RenderContainer(j, t, inner).None? <==> t == "orderedList" && "attrs" in j.fields && j.fields["attrs"].Null?
    ensures RenderContainer(j, t, inner).Some? ==> Reads(RenderContainer(j, t, inner).value, text, shown)
  {
    if t == "heading" { HeadingReads(j, inner, text, shown); }
    else if t == "orderedList" { OrderedListReads(j, inner, text, shown); }
    else { PlainContainerReads(j, t, inner, text, shown); }
  }

  lemma EmptyTagReads(name: string)
    requires name == "hr" || name == "br"
    ensures Reads(VoidElement(name, ""), "", [])
  {
    VoidReads(name, "");
  }

  ghost predicate NodeReadsAsWritten(lib: Library, j: Json) {
    && RenderNode(lib, j).Some? && !NullStart(j)
    && Reads(RenderNode(lib, j).value, PlainText(j), Shows(lib, j))
  }

  lemma TextLeaf(lib: Library, j: Json)
    requires j.Obj? && TypeOf(j) == Str("text") && IsText(lib, j)
    ensures NodeReadsAsWritten(lib, j)
  {
    TextReads(lib, j);
    assert !HasType(j, {"image"}) && !HasType(j, {"orderedList"}) && Children(j) == [];
    assert Shows(lib, j) == Links(GetList(j, "marks").items);
  }

  // What the document says of an image.
  lemma ImageSays(lib: Library, j: Json)
    requires j.Obj? && TypeOf(j) == Str("image") && IsImage(lib, j)
    ensures var attrs := Get(j, "attrs");
            && PlainText(j) == TextAttr(attrs, "caption")
            && Shows(lib, j) == [Picture(lib.uuid(Get(attrs, "media_id")).value, TextAttr(attrs, "alt"))]
  {
  }

  lemma ImageRenders(lib: Library, j: Json)
    requires j.Obj? && TypeOf(j) == Str("image") && IsImage(lib, j)
    ensures RenderNode(lib, j) == RenderImage(lib, j) && !NullStart(j)
  {
    assert !HasType(j, {"orderedList"}) && Children(j) == [];
  }

  lemma ReadsAsWritten(lib: Library, j: Json, html: string, text: string, shown: seq<Shown>)
    requires RenderNode(lib, j) == Some(html) && !NullStart(j) && PlainText(j) == text && Shows(lib, j) == shown
    requires Reads(html, text, shown)
    ensures NodeReadsAsWritten(lib, j)
  {
  }

  lemma ImageLeaf(lib: Library, j: Json)
    requires j.Obj? && TypeOf(j) == Str("image") && IsImage(lib, j)
    ensures NodeReadsAsWritten(lib, j)
  {
    ImageSays(lib, j);
    ImageReads(lib, j);
    ImageRenders(lib, j);
    ReadsAsWritten(lib, j, RenderImage(lib, j).value, PlainText(j), Shows(lib, j));
  }

  lemma RuleLeaf(lib: Library, j: Json)
    requires j.Obj? && TypeOf(j) == Str("horizontalRule") && OnlyKeys(j, {"type"})
    ensures NodeReadsAsWritten(lib, j)
  {
    EmptyTagReads("hr");
    assert !HasType(j, {"text"}) && !HasType(j, {"image"}) && !HasType(j, {"orderedList"}) && Children(j) == [];
    assert PlainText(j) == "" && Shows(lib, j) == [];
  }

  lemma BreakLeaf(lib: Library, j: Json)
    requires j.Obj? && TypeOf(j) == Str("hardBreak") && OnlyKeys(j, {"type"})
    ensures NodeReadsAsWritten(lib, j)
  {
    EmptyTagReads("br");
    assert !HasType(j, {"text"}) && !HasType(j, {"image"}) && !HasType(j, {"orderedList"}) && Children(j) == [];
    assert PlainText(j) == "" && Shows(lib, j) == [];
  }

  lemma LeafReads(lib: Library, j: Json)
    requires IsNode(lib, j) && TypeOf(j).s in {"text", "image", "horizontalRule", "hardBreak"}
    ensures NodeReadsAsWritten(lib, j)
  {
    if TypeOf(j) == Str("text") { TextLeaf(lib, j); }
    else if TypeOf(j) == Str("image") { ImageLeaf(lib, j); }
    else if TypeOf(j) == Str("horizontalRule") { RuleLeaf(lib, j); }
    else { BreakLeaf(lib, j); }
  }

  /**
    An accepted node renders unless an ordered list in it has null `attrs`, and a reader of
    the result finds well-nested markup with exactly the node's text and images.
   */
  lemma {:induction false} NodeReads(lib: Library, j: Json)
    requires IsNode(lib, j)
    ensures RenderNode(lib, j).None? <==> NullStart(j)
    ensures RenderNode(lib, j).Some? ==> Reads(RenderNode(lib, j).value, PlainText(j), Shows(lib, j))
    decreases j
  {
    var t := TypeOf(j).s;
    if t in {"text", "image", "horizontalRule", "hardBreak"} {
      LeafReads(lib, j);
    } else {
      if Children(j) == [] { EmptyReads(); } else { AllRead(lib, Children(j)); }
      var inner := if Children(j) == [] then Some("") else RenderAll(lib, Children(j));
      if inner.Some? { ContainerReads(j, t, inner.value, PlainText(j), Shows(lib, j)); }
    }
  }

  lemma {:induction false} AllRead(lib: Library, js: seq<Json>)
    requires forall c | c in js :: IsNode(lib, c)
    ensures RenderAll(lib, js).None? <==> exists c | c in js :: NullStart(c)
    ensures RenderAll(lib, js).Some? ==> Reads(RenderAll(lib, js).value, PlainTextAll(js), ShowsAll(lib, js))
    decreases js
  {
    if js == [] {
      EmptyReads();
    } else {
      var before, last := js[..|js| - 1], js[|js| - 1];
      assert last in js && forall c | c in js :: c in before || c == last;
      assert forall c | c in before :: c in js;
      AllRead(lib, before);
      NodeReads(lib, last);
      if RenderAll(lib, js).Some? {
        ReadsConcat(RenderAll(lib, before).value, PlainTextAll(before), ShowsAll(lib, before),
                    RenderNode(lib, last).value, PlainText(last), Shows(lib, last));
      }
    }
  }

  /** Every accepted document, whatever its length. */
  lemma DocumentReads(lib: Library, document: Json)
    requires IsDocument(lib, document)
    ensures RenderDocument(lib, document).None? <==> exists c | c in Children(document) :: NullStart(c)
    ensures RenderDocument(lib, document).Some? ==>
              Reads(RenderDocument(lib, document).value, PlainTextAll(Children(document)), ShowsAll(lib, Children(document)))
  {
    AllRead(lib, Children(document));
  }

  /** The pictures among what is shown are the images. */
  lemma {:induction false} PicturesAreImages(lib: Library, j: Json)
    requires IsNode(lib, j)
    ensures Sources(Shows(lib, j)) == Images(lib, j)
    decreases j
  {
    if TypeOf(j) == Str("text") {
      NoPictures(GetList(j, "marks").items);
      assert !HasType(j, {"image"}) && Children(j) == [];
    } else if HasType(j, {"image"}) {
      OnePicture(Shows(lib, j)[0]);
    } else if Children(j) != [] {
      AllPicturesAreImages(lib, Children(j));
    }
  }

  lemma {:induction false} AllPicturesAreImages(lib: Library, js: seq<Json>)
    requires forall c | c in js :: IsNode(lib, c)
    ensures Sources(ShowsAll(lib, js)) == ImagesAll(lib, js)
    decreases js
  {
    if js != [] {
      var before, last := js[..|js| - 1], js[|js| - 1];
      assert last in js && forall c | c in before :: c in js;
      AllPicturesAreImages(lib, before);
      PicturesAreImages(lib, last);
      SourcesConcat(ShowsAll(lib, before), Shows(lib, last));
    }
  }

  lemma {:induction false} NoPictures(marks: seq<Json>)
    ensures Sources(Links(marks)) == []
  {
    if marks != [] {
      var last := if IsLink(marks[|marks| - 1]) then [Link(Get(Get(marks[|marks| - 1], "attrs"), "href").s)] else [];
      NoPictures(marks[..|marks| - 1]);
      SourcesConcat(last, Links(marks[..|marks| - 1]));
      if last != [] { OnePicture(last[0]); }
    }
  }

  lemma OnePicture(s: Shown)
    ensures Sources([s]) == if s.Picture? then [s.id] else []
  {
    assert [s][..0] == [];
  }

  // ---------- the loops of the source ----------

  method RenderTextNode(lib: Library, j: Json) returns (result: Option<string>)
    requires j.Obj?
    ensures result == RenderText(lib, j)
  {
    if !Get(j, "text").Str? || !GetList(j, "marks").List? { return None; }
    var marks := GetList(j, "marks").items;
    var html := Escape(Get(j, "text").s, false);
    for i := 0 to |marks|
      invariant Some(html) == WrapMarks(lib, marks[..i], Escape(Get(j, "text").s, false))
    {
      assert marks[..i + 1][..i] == marks[..i];
      var wrapped := WrapMark(lib, marks[i], html);
      if wrapped.None? {
        StuckMarks(lib, marks, i + 1, Escape(Get(j, "text").s, false));
        return None;
      }
      html := wrapped.value;
    }
    assert marks[..|marks|] == marks;
    return Some(html);
  }

  lemma {:induction false} StuckMarks(lib: Library, marks: seq<Json>, k: nat, inner: string)
    requires k <= |marks| && WrapMarks(lib, marks[..k], inner).None?
    ensures WrapMarks(lib, marks, inner).None?
  {
    if k == |marks| {
      assert marks[..k] == marks;
    } else {
      assert marks[..|marks| - 1][..k] == marks[..k];
      StuckMarks(lib, marks[..|marks| - 1], k, inner);
    }
  }

  function Ids(images: seq<Uuid>): set<Uuid> {
    set id | id in images
  }

  /** Adds the media of a node's images to what was found so far. */
  method Visit(lib: Library, node: Json, found: set<Uuid>) returns (result: set<Uuid>)
    requires IsNode(lib, node)
    ensures result == found + Ids(Images(lib, node))
    decreases node, 1
  {
    result := found;
    if HasType(node, {"image"}) {
      result := result + {lib.uuid(Get(Get(node, "attrs"), "media_id")).value};
    } else if Children(node) != [] {
      result := VisitAll(lib, Children(node), result);
    }
  }

  method VisitAll(lib: Library, js: seq<Json>, found: set<Uuid>) returns (result: set<Uuid>)
    requires forall c | c in js :: IsNode(lib, c)
    ensures result == found + Ids(ImagesAll(lib, js))
    decreases js, 0
  {
    result := found;
    for i := 0 to |js|
      invariant result == found + Ids(ImagesAll(lib, js[..i]))
    {
      assert js[..i + 1][..i] == js[..i] && js[i] in js;
      result := Visit(lib, js[i], result);
    }
    assert js[..|js|] == js;
  }

  /** The media ids collected from an accepted document are those its HTML shows. */
  method ReferencedMediaIds(lib: Library, document: Json) returns (result: set<Uuid>)
    requires IsDocument(lib, document)
    ensures result == Ids(ImagesAll(lib, Children(document)))
    ensures var html := RenderDocument(lib, document);
            html.Some? ==> Scan(html.value).Some? && result == set id | id in ImagesOf(Scan(html.value).value)
  {
    result := VisitAll(lib, Children(document), {});
    DocumentReads(lib, document);
    AllPicturesAreImages(lib, Children(document));
  }
}
