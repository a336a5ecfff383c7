/**
  Structured rich text: JSON documents, the grammar an accepted document satisfies, and the
  fail-fast validator, which threads shared counters through its recursion.
 */
module RichText {
  import opened Common

  const MAX_NODES: nat := 10_000
  const MAX_DEPTH: nat := 32
  const MAX_TEXT_CHARS: nat := 200_000

  datatype Json =
    | Null
    | Bool(b: bool)
    | Int(i: int)
    | Float(r: real)
    | Str(s: string)
    | List(items: seq<Json>)
    | Obj(fields: map<string, Json>)

  // A UUID in its canonical spelling.
  type Uuid = s: string | forall c | c in s :: '0' <= c <= '9' || 'a' <= c <= 'f' || c == '-' witness ""

  // What the validator asks of Python's libraries: parsing of UUIDs, the (case-folded) scheme of
  // a URL, where parsing may fail, and which characters `str.strip` removes.
  datatype Library = Library(uuid: Json -> Option<Uuid>, scheme: string -> Option<string>, space: char -> bool)

  // ---------- reading JSON the way the code does ----------

  /** `mapping.get(key)`: a missing key reads as null. */
  function Get(j: Json, key: string): Json
    requires j.Obj?
  {
    if key in j.fields then j.fields[key] else Null
  }

  function TypeOf(j: Json): Json
    requires j.Obj?
  {
    Get(j, "type")
  }

  /** `mapping.get(key, [])`. */
  function GetList(j: Json, key: string): Json
    requires j.Obj?
  {
    if key in j.fields then j.fields[key] else List([])
  }

  function Children(j: Json): seq<Json> {
    if j.Obj? && "content" in j.fields && j.fields["content"].List? then j.fields["content"].items else []
  }

  predicate OnlyKeys(j: Json, allowed: set<string>)
    requires j.Obj?
  {
    j.fields.Keys <= allowed
  }

  /** `j in {1, ..., 6}` as Python compares: `True` and `2.0` are numbers too. */
  function Level(j: Json): Option<nat> {
    if j.Int? && 1 <= j.i <= 6 then Some(j.i)
    else if j == Bool(true) then Some(1)
    else if j.Float? && 1.0 <= j.r <= 6.0 && j.r.Floor as real == j.r then Some(j.r.Floor)
    else None
  }

  /** An `int` in Python's sense, so also a `bool`. */
  function Integer(j: Json): Option<int> {
    if j.Int? then Some(j.i) else if j.Bool? then Some(if j.b then 1 else 0) else None
  }

  predicate Hashable(j: Json) {
    !j.List? && !j.Obj?
  }

  // ---------- the grammar ----------

  const ROOT_TYPES := {"paragraph", "heading", "blockquote", "bulletList", "orderedList", "horizontalRule", "image"}
  const BLOCK_TYPES := {"paragraph", "heading", "blockquote", "bulletList", "orderedList"}
  const MARK_TYPES := {"bold", "italic", "underline", "link"}
  const CONTAINER_TYPES := BLOCK_TYPES + {"listItem"}

  function AllowedChildren(t: string): set<string> {
    if t in {"paragraph", "heading"} then {"text", "hardBreak"}
    else if t in {"blockquote", "listItem"} then BLOCK_TYPES
    else if t in {"bulletList", "orderedList"} then {"listItem"}
    else {}
  }

  predicate HasType(j: Json, types: set<string>) {
    j.Obj? && TypeOf(j).Str? && TypeOf(j).s in types
  }

  predicate IsHref(lib: Library, j: Json) {
    && j.Str? && 0 < |j.s| <= 2048
    && lib.scheme(j.s).Some?
    && lib.scheme(j.s).value in {"", "http", "https", "mailto", "tel"}
    && (lib.scheme(j.s).value == "" ==> j.s[0] in {'/', '#', '?'})
  }

  predicate IsMark(lib: Library, j: Json) {
    && HasType(j, MARK_TYPES)
    && (if TypeOf(j).s == "link"
        then OnlyKeys(j, {"type", "attrs"}) && Get(j, "attrs").Obj?
             && OnlyKeys(Get(j, "attrs"), {"href"}) && IsHref(lib, Get(Get(j, "attrs"), "href"))
        else OnlyKeys(j, {"type"}))
  }

  predicate AreMarks(lib: Library, marks: seq<Json>) {
    && (forall i | 0 <= i < |marks| :: IsMark(lib, marks[i]))
    && (forall i, k | 0 <= i < k < |marks| :: marks[i].Obj? && marks[k].Obj? ==> TypeOf(marks[i]) != TypeOf(marks[k]))
  }

  predicate IsText(lib: Library, j: Json)
    requires j.Obj?
  {
    && OnlyKeys(j, {"type", "text", "marks"})
    && Get(j, "text").Str? && Get(j, "text").s != ""
    && GetList(j, "marks").List? && AreMarks(lib, GetList(j, "marks").items)
  }

  predicate ShortText(j: Json, maximum: nat) {
    j.Null? || (j.Str? && |j.s| <= maximum)
  }

  predicate IsImage(lib: Library, j: Json)
    requires j.Obj?
  {
    && OnlyKeys(j, {"type", "attrs"})
    && Get(j, "attrs").Obj? && OnlyKeys(Get(j, "attrs"), {"media_id", "alt", "caption"})
    && lib.uuid(Get(Get(j, "attrs"), "media_id")).Some?
    && ShortText(Get(Get(j, "attrs"), "alt"), 500) && ShortText(Get(Get(j, "attrs"), "caption"), 2000)
  }

  // What a container may carry besides its children.
  predicate ContainerFrame(j: Json, t: string)
    requires j.Obj?
  {
    && OnlyKeys(j, if t in {"heading", "orderedList"} then {"type", "content", "attrs"} else {"type", "content"})
    && (t == "heading" ==>
          Get(j, "attrs").Obj? && OnlyKeys(Get(j, "attrs"), {"level"}) && Level(Get(Get(j, "attrs"), "level")).Some?)
    && (t == "orderedList" && Get(j, "attrs") != Null ==>
          Get(j, "attrs").Obj? && OnlyKeys(Get(j, "attrs"), {"start"})
          && Integer(Get(Get(j, "attrs"), "start")).Some? && Integer(Get(Get(j, "attrs"), "start")).value >= 1)
    && GetList(j, "content").List?
    && (t in {"bulletList", "orderedList", "listItem"} ==> Children(j) != [])
  }

  /** The grammar of nodes. */
  predicate IsNode(lib: Library, j: Json) {
    && j.Obj? && TypeOf(j).Str?
    && var t := TypeOf(j).s;
       if t == "text" then IsText(lib, j)
       else if t == "image" then IsImage(lib, j)
       else if t in {"horizontalRule", "hardBreak"} then OnlyKeys(j, {"type"})
       else t in CONTAINER_TYPES && ContainerFrame(j, t)
            && forall c | c in Children(j) :: HasType(c, AllowedChildren(t)) && IsNode(lib, c)
  }

  /** The grammar of documents. */
  predicate IsDocument(lib: Library, j: Json) {
    && j.Obj? && OnlyKeys(j, {"type", "content"}) && TypeOf(j) == Str("doc") && GetList(j, "content").List?
    && forall c | c in Children(j) :: HasType(c, ROOT_TYPES) && IsNode(lib, c)
  }

  // ---------- the true sizes ----------

  datatype Counts = Counts(nodes: nat, text: nat, meaningful: nat) {
    function Plus(c: Counts): Counts {
      Counts(nodes + c.nodes, text + c.text, meaningful + c.meaningful)
    }
  }

  predicate HasInk(lib: Library, s: string) {
    exists c | c in s :: !lib.space(c)
  }

  /** What one node adds by itself. */
  function Own(lib: Library, j: Json): Counts {
    if HasType(j, {"text"}) && Get(j, "text").Str? then
      Counts(1, |Get(j, "text").s|, if HasInk(lib, Get(j, "text").s) then 1 else 0)
    else Counts(1, 0, if HasType(j, {"image", "horizontalRule"}) then 1 else 0)
  }

  /** The nodes, characters of text and meaningful nodes of a tree. */
  function Tally(lib: Library, j: Json): Counts
    decreases j
  {
    if Children(j) == [] then Own(lib, j) else Own(lib, j).Plus(TallyAll(lib, Children(j)))
  }

  function TallyAll(lib: Library, js: seq<Json>): Counts
    decreases js
  {
    if js == [] then Counts(0, 0, 0)
    else TallyAll(lib, js[..|js| - 1]).Plus(Tally(lib, js[|js| - 1]))
  }

  function Height(j: Json): nat
    decreases j
  {
    if Children(j) == [] then 1 else 1 + HeightAll(Children(j))
  }

  function HeightAll(js: seq<Json>): nat
    decreases js
  {
    if js == [] then 0 else Max(HeightAll(js[..|js| - 1]), Height(js[|js| - 1]))
  }

  lemma {:induction false} PrefixIsLess(lib: Library, js: seq<Json>, k: nat)
    requires k <= |js|
    ensures TallyAll(lib, js[..k]).nodes <= TallyAll(lib, js).nodes
    ensures TallyAll(lib, js[..k]).text <= TallyAll(lib, js).text
    ensures HeightAll(js[..k]) <= HeightAll(js)
  {
    if k < |js| {
      PrefixIsLess(lib, js[..|js| - 1], k);
      assert js[..|js| - 1][..k] == js[..k];
    } else {
      assert js[..k] == js;
    }
  }

  // ---------- the validator ----------

  // Rejection is `RichTextError`, or another exception that the code lets escape: an
  // unhashable value looked up in a set, or a URL that does not parse.
  datatype Verdict = Accepted | RichTextError | OtherError

  /** The counters that one validation shares among all its calls. */
  class Counters {
    var nodes: nat
    var text: nat
    var meaningful: nat

    constructor ()
      ensures Value() == Counts(1, 0, 0)
    {
      nodes, text, meaningful := 1, 0, 0;
    }

    function Value(): Counts
      reads this
    {
      Counts(nodes, text, meaningful)
    }
  }

  /** What is left of the limits admits a tree at this depth. */
  predicate Fits(lib: Library, depth: nat, used: Counts, j: Json) {
    && depth + Height(j) <= MAX_DEPTH + 1
    && used.nodes + Tally(lib, j).nodes <= MAX_NODES
    && used.text + Tally(lib, j).text <= MAX_TEXT_CHARS
  }

  predicate FitAll(lib: Library, depth: nat, used: Counts, js: seq<Json>) {
    && (js != [] ==> depth + HeightAll(js) <= MAX_DEPTH + 1)
    && (js != [] ==> used.nodes + TallyAll(lib, js).nodes <= MAX_NODES)
    && used.text + TallyAll(lib, js).text <= MAX_TEXT_CHARS
  }

  // One more child: the sizes of a prefix grow by the child's.
  lemma FitsNext(lib: Library, depth: nat, used: Counts, js: seq<Json>, i: nat)
    requires i < |js| && FitAll(lib, depth, used, js[..i])
    ensures TallyAll(lib, js[..i + 1]) == TallyAll(lib, js[..i]).Plus(Tally(lib, js[i]))
    ensures FitAll(lib, depth, used, js[..i + 1]) <==> Fits(lib, depth, used.Plus(TallyAll(lib, js[..i])), js[i])
    ensures FitAll(lib, depth, used, js) ==> FitAll(lib, depth, used, js[..i + 1])
  {
    assert js[..i + 1][..i] == js[..i];
    PrefixIsLess(lib, js, i + 1);
  }

  predicate AreNodes(lib: Library, allowed: set<string>, js: seq<Json>) {
    forall c | c in js :: HasType(c, allowed) && IsNode(lib, c)
  }

  lemma NodesNext(lib: Library, allowed: set<string>, js: seq<Json>, i: nat)
    requires i < |js| && AreNodes(lib, allowed, js[..i])
    ensures AreNodes(lib, allowed, js[..i + 1]) <==> HasType(js[i], allowed) && IsNode(lib, js[i])
    ensures AreNodes(lib, allowed, js) ==> AreNodes(lib, allowed, js[..i + 1])
  {
    assert js[..i + 1] == js[..i] + [js[i]];
  }

  method CheckHref(lib: Library, value: Json) returns (v: Verdict)
    ensures v.Accepted? <==> IsHref(lib, value)
  {
    if !value.Str? || value.s == "" || |value.s| > 2048 { return RichTextError; }
    var scheme := lib.scheme(value.s);
    if scheme.None? { return OtherError; }
    if scheme.value !in {"", "http", "https", "mailto", "tel"} { return RichTextError; }
    if scheme.value == "" && value.s[0] !in {'/', '#', '?'} { return RichTextError; }
    return Accepted;
  }

  method CheckMarks(lib: Library, marks: seq<Json>) returns (v: Verdict)
    ensures v.Accepted? <==> AreMarks(lib, marks)
  {
    var seen: set<string> := {};
    for i := 0 to |marks|
      invariant forall k | 0 <= k < i :: IsMark(lib, marks[k])
      invariant forall k, l | 0 <= k < l < i :: TypeOf(marks[k]) != TypeOf(marks[l])
      invariant seen == set k | 0 <= k < i :: TypeOf(marks[k]).s
    {
      var mark := marks[i];
      if !mark.Obj? { return RichTextError; }
      var markType := TypeOf(mark);
      if !Hashable(markType) { return OtherError; }
      if !markType.Str? || markType.s !in MARK_TYPES { return RichTextError; }
      if markType.s in seen {
        assert exists k :: 0 <= k < i && TypeOf(marks[k]) == TypeOf(marks[i]);
        return RichTextError;
      }
      seen := seen + {markType.s};
      if markType.s == "link" {
        if !OnlyKeys(mark, {"type", "attrs"}) { return RichTextError; }
        var attrs := Get(mark, "attrs");
        if !attrs.Obj? || !OnlyKeys(attrs, {"href"}) { return RichTextError; }
        v := CheckHref(lib, Get(attrs, "href"));
        if !v.Accepted? { return; }
      } else if !OnlyKeys(mark, {"type"}) {
        return RichTextError;
      }
    }
    return Accepted;
  }

  method CheckContainer(node: Json, t: string) returns (v: Verdict)
    requires node.Obj? && t in CONTAINER_TYPES
    ensures v.Accepted? <==> ContainerFrame(node, t)
  {
    var allowed := {"type", "content"};
    if t in {"heading", "orderedList"} { allowed := allowed + {"attrs"}; }
    if !OnlyKeys(node, allowed) { return RichTextError; }
    var attrs := Get(node, "attrs");
    if t == "heading" {
      if !attrs.Obj? || !OnlyKeys(attrs, {"level"}) { return RichTextError; }
      if !Hashable(Get(attrs, "level")) { return OtherError; }
      if Level(Get(attrs, "level")).None? { return RichTextError; }
    } else if t == "orderedList" && attrs != Null {
      if !attrs.Obj? || !OnlyKeys(attrs, {"start"}) { return RichTextError; }
      var start := Integer(Get(attrs, "start"));
      if start.None? || start.value < 1 { return RichTextError; }
    }
    if !GetList(node, "content").List? { return RichTextError; }
    if t in {"bulletList", "orderedList", "listItem"} && Children(node) == [] { return RichTextError; }
    return Accepted;
  }

  method CheckImage(lib: Library, node: Json) returns (v: Verdict)
    requires node.Obj?
    ensures v.Accepted? <==> IsImage(lib, node)
  {
    if !OnlyKeys(node, {"type", "attrs"}) { return RichTextError; }
    var attrs := Get(node, "attrs");
    if !attrs.Obj? || !OnlyKeys(attrs, {"media_id", "alt", "caption"}) { return RichTextError; }
    if lib.uuid(Get(attrs, "media_id")).None? { return RichTextError; }
    if !ShortText(Get(attrs, "alt"), 500) || !ShortText(Get(attrs, "caption"), 2000) { return RichTextError; }
    return Accepted;
  }

  method ValidateNode(lib: Library, raw: Json, depth: nat, counters: Counters) returns (v: Verdict)
    requires counters.text <= MAX_TEXT_CHARS
    modifies counters
    ensures v.Accepted? <==> IsNode(lib, raw) && Fits(lib, depth, old(counters.Value()), raw)
    ensures v.Accepted? ==> counters.Value() == old(counters.Value()).Plus(Tally(lib, raw))
    decreases raw, 1
  {
    if depth > MAX_DEPTH { return RichTextError; }
    if !raw.Obj? || !TypeOf(raw).Str? { return RichTextError; }
    var nodeType := TypeOf(raw).s;
    counters.nodes := counters.nodes + 1;
    if counters.nodes > MAX_NODES { return RichTextError; }
    if nodeType == "text" {
      v := ValidateText(lib, raw, counters);
      return;
    }
    if nodeType == "image" {
      v := CheckImage(lib, raw);
      if v.Accepted? { counters.meaningful := counters.meaningful + 1; }
      return;
    }
    if nodeType in {"horizontalRule", "hardBreak"} {
      if !OnlyKeys(raw, {"type"}) { return RichTextError; }
      if nodeType == "horizontalRule" { counters.meaningful := counters.meaningful + 1; }
      return Accepted;
    }
    if nodeType !in CONTAINER_TYPES { return RichTextError; }
    v := CheckContainer(raw, nodeType);
    if v.Accepted? && Children(raw) != [] {
      v := ValidateChildren(lib, Children(raw), AllowedChildren(nodeType), depth + 1, counters);
    }
  }

  method ValidateText(lib: Library, node: Json, counters: Counters) returns (v: Verdict)
    requires HasType(node, {"text"}) && counters.text <= MAX_TEXT_CHARS
    modifies counters
    ensures v.Accepted? <==> IsText(lib, node) && old(counters.text) + Tally(lib, node).text <= MAX_TEXT_CHARS
    ensures v.Accepted? ==> counters.nodes == old(counters.nodes)
    ensures v.Accepted? ==> counters.text == old(counters.text) + Tally(lib, node).text
    ensures v.Accepted? ==> counters.meaningful == old(counters.meaningful) + Tally(lib, node).meaningful
  {
    if !OnlyKeys(node, {"type", "text", "marks"}) { return RichTextError; }
    var value := Get(node, "text");
    if !value.Str? || value.s == "" { return RichTextError; }
    counters.text := counters.text + |value.s|;
    if HasInk(lib, value.s) { counters.meaningful := counters.meaningful + 1; }
    if counters.text > MAX_TEXT_CHARS { return RichTextError; }
    if !GetList(node, "marks").List? { return RichTextError; }
    v := CheckMarks(lib, GetList(node, "marks").items);
  }

  /** Both loops over children: the root's and a container's. */
  method ValidateChildren(lib: Library, js: seq<Json>, allowed: set<string>, depth: nat, counters: Counters) returns (v: Verdict)
    requires counters.text <= MAX_TEXT_CHARS
    modifies counters
    ensures v.Accepted? <==>
              AreNodes(lib, allowed, js) && FitAll(lib, depth, old(counters.Value()), js)
    ensures v.Accepted? ==> counters.Value() == old(counters.Value()).Plus(TallyAll(lib, js))
    decreases js, 0
  {
    for i := 0 to |js|
      invariant AreNodes(lib, allowed, js[..i])
      invariant FitAll(lib, depth, old(counters.Value()), js[..i])
      invariant counters.Value() == old(counters.Value()).Plus(TallyAll(lib, js[..i]))
    {
      FitsNext(lib, depth, old(counters.Value()), js, i);
      NodesNext(lib, allowed, js, i);
      if !js[i].Obj? { return RichTextError; }
      if !Hashable(TypeOf(js[i])) { return OtherError; }
      if !HasType(js[i], allowed) { return RichTextError; }
      v := ValidateNode(lib, js[i], depth, counters);
      if !v.Accepted? { return; }
    }
    assert js[..|js|] == js;
    return Accepted;
  }

  /** The grammar, and the true sizes within the limits. */
  predicate IsAcceptable(lib: Library, document: Json, requireContent: bool) {
    && IsDocument(lib, document)
    && HeightAll(Children(document)) <= MAX_DEPTH
    && 1 + TallyAll(lib, Children(document)).nodes <= MAX_NODES
    && TallyAll(lib, Children(document)).text <= MAX_TEXT_CHARS
    && (requireContent ==> TallyAll(lib, Children(document)).meaningful > 0)
  }

  method ValidateDocument(lib: Library, value: Json, requireContent: bool) returns (v: Verdict)
    ensures v.Accepted? <==> IsAcceptable(lib, value, requireContent)
  {
    if !value.Obj? || !OnlyKeys(value, {"type", "content"}) || TypeOf(value) != Str("doc") { return RichTextError; }
    if !GetList(value, "content").List? { return RichTextError; }
    var counters := new Counters();
    v := ValidateChildren(lib, Children(value), ROOT_TYPES, 1, counters);
    if v.Accepted? && requireContent && counters.meaningful == 0 { return RichTextError; }
  }
}
