/**
  The outline of a document: which element each node becomes, with which attributes, around
  which text. A reader of the rendered HTML gets exactly the outline back.
 */
module Outlines {
  import opened Common
  import opened RichText
  import opened Html
  import opened Rendering

  // ---------- the reader's side ----------

  datatype Piece = Start(name: string, attributes: seq<(string, string)>) | End(name: string) | Letter(c: char)

  /** Keys and decoded values, in order. */
  function AttributeList(keys: set<string>, a: string): seq<(string, string)>
    decreases |a|
  {
    var n := AttributeLength(keys, a);
    var e := IndexOf(a, '=');
    if n.None? then [] else [(a[1..e], Decode(a[e + 2..n.value - 1]))] + AttributeList(keys, a[n.value..])
  }

  function StartOf(body: string): Piece {
    var n := IndexOf(body, ' ');
    Start(body[..n], AttributeList(ATTRIBUTES, body[n..]))
  }

  function PieceOf(t: Token): seq<Piece> {
    if t.Ch? then [Letter(t.c)]
    else if t.body != "" && t.body[0] == '/' then [End(t.body[1..])]
    else [StartOf(t.body)]
  }

  /** What a reader of `html` finds: every tag, with its decoded attributes, and every character, in order. */
  ghost predicate ReadsAs(html: string, pieces: seq<Piece>) {
    Scan(html).Some? && FlatMap(PieceOf, Scan(html).value) == pieces
  }

  // ---------- the document's side ----------

  function Letters(s: string): seq<Piece> {
    if s == "" then [] else [Letter(s[0])] + Letters(s[1..])
  }

  function Around(name: string, attributes: seq<(string, string)>, inner: seq<Piece>): seq<Piece> {
    [Start(name, attributes)] + inner + [End(name)]
  }

  /** Links to other sites, and no others, open elsewhere. */
  function LinkParts(lib: Library, href: string): seq<(string, string)> {
    if External(lib, href) then [("href", href), ("target", "_blank"), ("rel", "noopener noreferrer")] else [("href", href)]
  }

  function MarkOutline(lib: Library, mark: Json, inner: seq<Piece>): seq<Piece> {
    if HasType(mark, {"bold"}) then Around("strong", [], inner)
    else if HasType(mark, {"italic"}) then Around("em", [], inner)
    else if HasType(mark, {"underline"}) then Around("u", [], inner)
    else if IsLink(mark) then Around("a", LinkParts(lib, Get(Get(mark, "attrs"), "href").s), inner)
    else inner
  }

  /** One element for each mark, the last outermost. */
  function MarksOutline(lib: Library, marks: seq<Json>, inner: seq<Piece>): seq<Piece> {
    if marks == [] then inner else MarkOutline(lib, marks[|marks| - 1], MarksOutline(lib, marks[..|marks| - 1], inner))
  }

  function TextOutline(lib: Library, j: Json): seq<Piece>
    requires j.Obj?
  {
    if Get(j, "text").Str? && GetList(j, "marks").List? then MarksOutline(lib, GetList(j, "marks").items, Letters(Get(j, "text").s)) else []
  }

  function ImageParts(id: Uuid, alt: string): seq<(string, string)> {
    [("src", MEDIA_PATH + id), ("alt", alt), ("loading", "lazy")]
  }

  function FigureOutline(id: Uuid, alt: string, caption: string): seq<Piece> {
    Around("figure", [], [Start("img", ImageParts(id, alt))] + if caption == "" then [] else Around("figcaption", [], Letters(caption)))
  }

  function ImageOutline(lib: Library, j: Json): seq<Piece>
    requires j.Obj?
  {
    var attrs := Get(j, "attrs");
    if attrs.Obj? && lib.uuid(Get(attrs, "media_id")).Some?
    then FigureOutline(lib.uuid(Get(attrs, "media_id")).value, TextAttr(attrs, "alt"), TextAttr(attrs, "caption")) else []
  }

  const HEADINGS := ["h1", "h2", "h3", "h4", "h5", "h6"]

  /** The number that an ordered list starts with. */
  function FirstNumber(j: Json): int
    requires j.Obj?
  {
    if Get(j, "attrs").Obj? && Integer(Get(Get(j, "attrs"), "start")).Some? then Integer(Get(Get(j, "attrs"), "start")).value else 1
  }

  /** Each container has its own element; a list says where it starts unless at 1. */
  function ContainerOutline(j: Json, t: string, inner: seq<Piece>): seq<Piece>
    requires j.Obj?
  {
    if t == "paragraph" then Around("p", [], inner)
    else if t == "heading" && Get(j, "attrs").Obj? && Level(Get(Get(j, "attrs"), "level")).Some?
    then Around(HEADINGS[Level(Get(Get(j, "attrs"), "level")).value - 1], [], inner)
    else if t == "blockquote" then Around("blockquote", [], inner)
    else if t == "bulletList" then Around("ul", [], inner)
    else if t == "orderedList" && FirstNumber(j) >= 1
    then Around("ol", if FirstNumber(j) == 1 then [] else [("start", Decimal(FirstNumber(j)))], inner)
    else if t == "listItem" then Around("li", [], inner)
    else inner
  }

  function Outline(lib: Library, j: Json): seq<Piece>
    decreases j
  {
    if !j.Obj? || !TypeOf(j).Str? then []
    else
      var t := TypeOf(j).s;
      if t == "text" then TextOutline(lib, j)
      else if t == "image" then ImageOutline(lib, j)
      else if t == "horizontalRule" then [Start("hr", [])]
      else if t == "hardBreak" then [Start("br", [])]
      else ContainerOutline(j, t, if Children(j) == [] then [] else OutlineAll(lib, Children(j)))
  }

  function OutlineAll(lib: Library, js: seq<Json>): seq<Piece>
    decreases js
  {
    if js == [] then [] else OutlineAll(lib, js[..|js| - 1]) + Outline(lib, js[|js| - 1])
  }

  // ---------- fragments ----------

  lemma EmptyReadsAs()
    ensures ReadsAs("", [])
  {
  }

  lemma ReadsAsConcat(h: string, p: seq<Piece>, h': string, p': seq<Piece>)
    requires ReadsAs(h, p) && ReadsAs(h', p')
    ensures ReadsAs(h + h', p + p')
  {
    ScanConcat(h, h');
    FlatMapConcat(PieceOf, Scan(h).value, Scan(h').value);
  }

  lemma {:induction false} EscapeReadsAs(s: string, quote: bool)
    ensures ReadsAs(Escape(s, quote), Letters(s))
  {
    if s == "" {
      EmptyReadsAs();
    } else {
      EscapeCharReads(s[0], quote);
      FlatMapOne(PieceOf, Ch(s[0]));
      EscapeReadsAs(s[1..], quote);
      ReadsAsConcat(EscapeChar(s[0], quote), [Letter(s[0])], Escape(s[1..], quote), Letters(s[1..]));
    }
  }

  lemma TagReadsAs(body: string)
    requires '<' !in body && '>' !in body
    ensures ReadsAs("<" + body + ">", PieceOf(Tag(body)))
  {
    TagScans(body);
    FlatMapOne(PieceOf, Tag(body));
  }

  lemma StartPiece(name: string, attributes: string)
    requires Bare(name) && Attributes(attributes)
    ensures PieceOf(Tag(name + attributes)) == [Start(name, AttributeList(ATTRIBUTES, attributes))]
  {
    NameOf(name, attributes);
    assert (name + attributes)[0] == name[0];
  }

  lemma EndPiece(name: string)
    ensures PieceOf(Tag("/" + name)) == [End(name)]
  {
    assert ("/" + name)[1..] == name;
  }

  lemma VoidReadsAs(name: string, attributes: string)
    requires name in VOID_ELEMENTS && Attributes(attributes)
    ensures ReadsAs(VoidElement(name, attributes), [Start(name, AttributeList(ATTRIBUTES, attributes))])
  {
    NamesAreBare();
    NoAngles(name, attributes);
    StartPiece(name, attributes);
    TagReadsAs(name + attributes);
  }

  lemma ElementReadsAs(name: string, attributes: string, inner: string, pieces: seq<Piece>)
    requires name in ELEMENTS && Attributes(attributes) && ReadsAs(inner, pieces)
    ensures ReadsAs(Element(name, attributes, inner), Around(name, AttributeList(ATTRIBUTES, attributes), pieces))
  {
    NamesAreBare();
    NoAngles(name, attributes);
    NoAngles("/", name);
    StartPiece(name, attributes);
    EndPiece(name);
    var open, close := "<" + (name + attributes) + ">", "<" + ("/" + name) + ">";
    var start, end := [Start(name, AttributeList(ATTRIBUTES, attributes))], [End(name)];
    TagReadsAs(name + attributes);
    TagReadsAs("/" + name);
    ReadsAsConcat(open, start, inner, pieces);
    ReadsAsConcat(open + inner, start + pieces, close, end);
  }

  lemma PlainElementReadsAs(name: string, inner: string, pieces: seq<Piece>)
    requires name in ELEMENTS && ReadsAs(inner, pieces)
    ensures ReadsAs(Element(name, "", inner), Around(name, [], pieces))
  {
    ElementReadsAs(name, "", inner, pieces);
  }

  // ---------- attributes ----------

  lemma NextAttribute(key: string, value: string, rest: string)
    requires Key(key) && '"' !in value
    ensures AttributeList(ATTRIBUTES, Attribute(key, value) + rest) == [(key, Decode(value))] + AttributeList(ATTRIBUTES, rest)
  {
    AttributeParses(ATTRIBUTES, key, value, rest);
    AttributeParts(key, value, rest);
  }

  lemma LastAttribute(key: string, value: string)
    requires Key(key) && '"' !in value
    ensures AttributeList(ATTRIBUTES, Attribute(key, value)) == [(key, Decode(value))]
  {
    NextAttribute(key, value, "");
    assert Attribute(key, value) + "" == Attribute(key, value);
  }

  lemma PlainDecodes(s: string)
    requires '&' !in s && '<' !in s && '>' !in s
    ensures Decode(s) == s
  {
    NothingToEscape(s);
    DecodeEscaped(s, false);
  }

  lemma ThreeParts(k: string, v: string, l: string, w: string, m: string, x: string)
    requires Key(k) && '"' !in v && Key(l) && '"' !in w && Key(m) && '"' !in x
    ensures AttributeList(ATTRIBUTES, Attribute(k, v) + (Attribute(l, w) + Attribute(m, x))) == [(k, Decode(v)), (l, Decode(w)), (m, Decode(x))]
  {
    LastAttribute(m, x);
    NextAttribute(l, w, Attribute(m, x));
    NextAttribute(k, v, Attribute(l, w) + Attribute(m, x));
  }

  // Values that the renderer writes as they are.
  predicate Plain(s: string) {
    forall c | c in s :: c !in "&<>\""
  }

  lemma PlainReads(s: string)
    requires Plain(s)
    ensures Decode(s) == s && '"' !in s
  {
    PlainDecodes(s);
  }

  lemma LiteralsArePlain()
    ensures Plain("_blank") && Plain("noopener noreferrer") && Plain("lazy")
  {
  }

  predicate External(lib: Library, href: string) {
    lib.scheme(href) == Some("http") || lib.scheme(href) == Some("https")
  }

  lemma LinkAttributesAre(lib: Library, href: string)
    requires lib.scheme(href).Some?
    ensures LinkAttributes(lib, href).value
            == if External(lib, href)
               then Attribute("href", Escape(href, true)) + (Attribute("target", "_blank") + Attribute("rel", "noopener noreferrer"))
               else Attribute("href", Escape(href, true))
  {
    assert Attribute("href", Escape(href, true)) + "" == Attribute("href", Escape(href, true));
  }

  lemma LinkPartsRead(lib: Library, href: string)
    requires lib.scheme(href).Some?
    ensures AttributeList(ATTRIBUTES, LinkAttributes(lib, href).value) == LinkParts(lib, href)
  {
    LinkAttributesAre(lib, href);
    LinkValueReads(href);
    if External(lib, href) {
      ExternalPartsRead(Escape(href, true));
    }
  }

  lemma LinkValueReads(href: string)
    ensures '"' !in Escape(href, true) && Decode(Escape(href, true)) == href
    ensures AttributeList(ATTRIBUTES, Attribute("href", Escape(href, true))) == [("href", href)]
  {
    KeysAreFine();
    EscapeInert(href);
    DecodeEscaped(href, true);
    LastAttribute("href", Escape(href, true));
  }

  lemma ExternalPartsRead(value: string)
    requires '"' !in value
    ensures AttributeList(ATTRIBUTES, Attribute("href", value) + (Attribute("target", "_blank") + Attribute("rel", "noopener noreferrer")))
            == [("href", Decode(value)), ("target", "_blank"), ("rel", "noopener noreferrer")]
  {
    KeysAreFine();
    LiteralsArePlain();
    PlainReads("_blank");
    PlainReads("noopener noreferrer");
    ThreeParts("href", value, "target", "_blank", "rel", "noopener noreferrer");
  }

  lemma ImagePartsRead(id: Uuid, alt: string)
    ensures AttributeList(ATTRIBUTES, ImageAttributes(id, alt)) == ImageParts(id, alt)
  {
    KeysAreFine();
    MediaUrlInert(id);
    MediaUrlDecodes(id);
    EscapeInert(alt);
    DecodeEscaped(alt, true);
    LiteralsArePlain();
    PlainReads("lazy");
    ThreeParts("src", MEDIA_PATH + id, "alt", Escape(alt, true), "loading", "lazy");
  }

  lemma {:induction false} DigitsOnly(n: nat)
    ensures Decimal(n) != "" && forall c | c in Decimal(n) :: '0' <= c <= '9'
  {
    if n >= 10 { DigitsOnly(n / 10); }
  }

  predicate AreDigits(s: string) {
    forall i | 0 <= i < |s| :: '0' <= s[i] <= '9'
  }

  function Number(digits: string): nat
    requires AreDigits(digits)
  {
    if digits == "" then 0
    else 10 * Number(digits[..|digits| - 1]) + (digits[|digits| - 1] as int - '0' as int)
  }

  lemma DigitSays(d: nat)
    requires d < 10
    ensures "0123456789"[d] as int == '0' as int + d
  {
  }

  lemma NumberNext(digits: string, c: char)
    requires AreDigits(digits) && '0' <= c <= '9'
    ensures AreDigits(digits + [c]) && Number(digits + [c]) == 10 * Number(digits) + (c as int - '0' as int)
  {
    assert (digits + [c])[..|digits|] == digits;
  }

  lemma DecimalNext(n: nat)
    ensures n < 10 ==> Decimal(n) == "" + ["0123456789"[n % 10]]
    ensures n >= 10 ==> Decimal(n) == Decimal(n / 10) + ["0123456789"[n % 10]]
  {
  }

  lemma Says(n: nat, before: string, digits: string)
    requires AreDigits(before) && Number(before) == n / 10 && digits == before + ["0123456789"[n % 10]]
    ensures AreDigits(digits) && Number(digits) == n
  {
    DigitSays(n % 10);
    NumberNext(before, "0123456789"[n % 10]);
  }

  /** The decimal digits of a number say that number. */
  lemma {:induction false} DecimalSays(n: nat)
    ensures AreDigits(Decimal(n)) && Number(Decimal(n)) == n
  {
    var digits := Decimal(n);
    DecimalNext(n);
    if n < 10 {
      Says(n, "", digits);
    } else {
      DecimalSays(n / 10);
      Says(n, Decimal(n / 10), digits);
    }
  }

  lemma StartRead(n: nat)
    ensures AttributeList(ATTRIBUTES, Attribute("start", Decimal(n))) == [("start", Decimal(n))]
  {
    KeysAreFine();
    DigitsOnly(n);
    PlainDecodes(Decimal(n));
    LastAttribute("start", Decimal(n));
  }

  // ---------- nodes ----------

  lemma MarkReadsAs(lib: Library, mark: Json, inner: string, pieces: seq<Piece>)
    requires IsMark(lib, mark) && ReadsAs(inner, pieces)
    ensures WrapMark(lib, mark, inner).Some? && ReadsAs(WrapMark(lib, mark, inner).value, MarkOutline(lib, mark, pieces))
  {
    var t := TypeOf(mark).s;
    if t == "bold" { PlainElementReadsAs("strong", inner, pieces); }
    else if t == "italic" { PlainElementReadsAs("em", inner, pieces); }
    else if t == "underline" { PlainElementReadsAs("u", inner, pieces); }
    else { LinkReadsAs(lib, mark, inner, pieces); }
  }

  lemma LinkOutline(lib: Library, mark: Json, pieces: seq<Piece>)
    requires IsMark(lib, mark) && TypeOf(mark) == Str("link")
    ensures IsLink(mark) && MarkOutline(lib, mark, pieces) == Around("a", LinkParts(lib, Get(Get(mark, "attrs"), "href").s), pieces)
  {
    LinkHasTarget(lib, mark);
  }

  lemma LinkReadsAs(lib: Library, mark: Json, inner: string, pieces: seq<Piece>)
    requires IsMark(lib, mark) && TypeOf(mark) == Str("link") && ReadsAs(inner, pieces)
    ensures WrapMark(lib, mark, inner).Some? && ReadsAs(WrapMark(lib, mark, inner).value, MarkOutline(lib, mark, pieces))
  {
    LinkOutline(lib, mark, pieces);
    var attributes := LinkWraps(lib, mark, inner);
    LinkPartsRead(lib, Get(Get(mark, "attrs"), "href").s);
    ElementReadsAs("a", attributes, inner, pieces);
  }

  lemma {:induction false} MarksReadAs(lib: Library, marks: seq<Json>, inner: string, pieces: seq<Piece>)
    requires (forall m | m in marks :: IsMark(lib, m)) && ReadsAs(inner, pieces)
    ensures WrapMarks(lib, marks, inner).Some? && ReadsAs(WrapMarks(lib, marks, inner).value, MarksOutline(lib, marks, pieces))
  {
    if marks != [] {
      var before, last := marks[..|marks| - 1], marks[|marks| - 1];
      MarksReadAs(lib, before, inner, pieces);
      MarkReadsAs(lib, last, WrapMarks(lib, before, inner).value, MarksOutline(lib, before, pieces));
    }
  }

  lemma TextReadsAs(lib: Library, j: Json)
    requires j.Obj? && IsText(lib, j)
    ensures RenderText(lib, j).Some? && ReadsAs(RenderText(lib, j).value, TextOutline(lib, j))
  {
    var s := Get(j, "text").s;
    EscapeReadsAs(s, false);
    MarksReadAs(lib, GetList(j, "marks").items, Escape(s, false), Letters(s));
  }

  lemma FigureReadsAs(id: Uuid, alt: string, caption: string)
    ensures ReadsAs(Figure(VoidElement("img", ImageAttributes(id, alt)), caption), FigureOutline(id, alt, caption))
  {
    var image, pieces := VoidElement("img", ImageAttributes(id, alt)), [Start("img", ImageParts(id, alt))];
    ImageAttributesFine(id, alt);
    ImagePartsRead(id, alt);
    VoidReadsAs("img", ImageAttributes(id, alt));
    if caption == "" {
      assert image + "" == image && pieces + [] == pieces;
      PlainElementReadsAs("figure", image, pieces);
    } else {
      EscapeReadsAs(caption, true);
      PlainElementReadsAs("figcaption", Escape(caption, true), Letters(caption));
      ReadsAsConcat(image, pieces, Element("figcaption", "", Escape(caption, true)), Around("figcaption", [], Letters(caption)));
      PlainElementReadsAs("figure", image + Element("figcaption", "", Escape(caption, true)), pieces + Around("figcaption", [], Letters(caption)));
    }
  }

  lemma ImageReadsAs(lib: Library, j: Json)
    requires j.Obj? && IsImage(lib, j)
    ensures RenderImage(lib, j).Some? && ReadsAs(RenderImage(lib, j).value, ImageOutline(lib, j))
  {
    var attrs := Get(j, "attrs");
    FigureReadsAs(lib.uuid(Get(attrs, "media_id")).value, TextAttr(attrs, "alt"), TextAttr(attrs, "caption"));
  }

  lemma HeadingReadsAs(j: Json, inner: string, pieces: seq<Piece>)
    requires j.Obj? && ContainerFrame(j, "heading") && ReadsAs(inner, pieces)
    ensures RenderContainer(j, "heading", inner).Some?
    ensures ReadsAs(RenderContainer(j, "heading", inner).value, ContainerOutline(j, "heading", pieces))
  {
    var level := Level(Get(Get(j, "attrs"), "level")).value;
    HeadingName(level);
    assert "h" + Decimal(level) == HEADINGS[level - 1];
    PlainElementReadsAs(HEADINGS[level - 1], inner, pieces);
  }

  lemma OrderedListReadsAs(j: Json, inner: string, pieces: seq<Piece>)
    requires j.Obj? && ContainerFrame(j, "orderedList") && ReadsAs(inner, pieces) && RenderContainer(j, "orderedList", inner).Some?
    ensures ReadsAs(RenderContainer(j, "orderedList", inner).value, ContainerOutline(j, "orderedList", pieces))
  {
    var start := ListStart(j).value;
    assert start == FirstNumber(j);
    if start == 1 {
      PlainElementReadsAs("ol", inner, pieces);
    } else {
      KeysAreFine();
      DecimalInert(start);
      OneAttribute("start", Decimal(start));
      StartRead(start);
      ElementReadsAs("ol", Attribute("start", Decimal(start)), inner, pieces);
    }
  }

  lemma ContainerReadsAs(j: Json, t: string, inner: string, pieces: seq<Piece>)
    requires j.Obj? && t in CONTAINER_TYPES && ContainerFrame(j, t) && ReadsAs(inner, pieces) && RenderContainer(j, t, inner).Some?
    ensures ReadsAs(RenderContainer(j, t, inner).value, ContainerOutline(j, t, pieces))
  {
    if t == "heading" { HeadingReadsAs(j, inner, pieces); }
    else if t == "orderedList" { OrderedListReadsAs(j, inner, pieces); }
    else if t == "paragraph" { PlainElementReadsAs("p", inner, pieces); }
    else if t == "blockquote" { PlainElementReadsAs("blockquote", inner, pieces); }
    else if t == "bulletList" { PlainElementReadsAs("ul", inner, pieces); }
    else { PlainElementReadsAs("li", inner, pieces); }
  }

  lemma LeafReadsAs(lib: Library, j: Json)
    requires IsNode(lib, j) && TypeOf(j).s in {"text", "image", "horizontalRule", "hardBreak"}
    ensures RenderNode(lib, j).Some? && ReadsAs(RenderNode(lib, j).value, Outline(lib, j))
  {
    if TypeOf(j) == Str("text") { TextReadsAs(lib, j); }
    else if TypeOf(j) == Str("image") { ImageReadsAs(lib, j); }
    else if TypeOf(j) == Str("horizontalRule") { VoidReadsAs("hr", ""); }
    else { VoidReadsAs("br", ""); }
  }

  /** Whatever renders reads back as exactly its outline. */
  lemma {:induction false} NodeReadsAs(lib: Library, j: Json)
    requires IsNode(lib, j) && RenderNode(lib, j).Some?
    ensures ReadsAs(RenderNode(lib, j).value, Outline(lib, j))
    decreases j
  {
    var t := TypeOf(j).s;
    if t in {"text", "image", "horizontalRule", "hardBreak"} {
      LeafReadsAs(lib, j);
    } else {
      if Children(j) == [] { EmptyReadsAs(); } else { AllReadAs(lib, Children(j)); }
      var inner := if Children(j) == [] then "" else RenderAll(lib, Children(j)).value;
      ContainerReadsAs(j, t, inner, if Children(j) == [] then [] else OutlineAll(lib, Children(j)));
    }
  }

  lemma {:induction false} AllReadAs(lib: Library, js: seq<Json>)
    requires (forall c | c in js :: IsNode(lib, c)) && RenderAll(lib, js).Some?
    ensures ReadsAs(RenderAll(lib, js).value, OutlineAll(lib, js))
    decreases js
  {
    if js == [] {
      EmptyReadsAs();
    } else {
      var before, last := js[..|js| - 1], js[|js| - 1];
      assert last in js && forall c | c in before :: c in js;
      AllReadAs(lib, before);
      NodeReadsAs(lib, last);
      ReadsAsConcat(RenderAll(lib, before).value, OutlineAll(lib, before), RenderNode(lib, last).value, Outline(lib, last));
    }
  }

  /** Every accepted document that renders. */
  lemma DocumentReadsAs(lib: Library, document: Json)
    requires IsDocument(lib, document) && RenderDocument(lib, document).Some?
    ensures ReadsAs(RenderDocument(lib, document).value, OutlineAll(lib, Children(document)))
  {
    AllReadAs(lib, Children(document));
  }
}
