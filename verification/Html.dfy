/**
  A reader of HTML, independent of the renderer: it splits a string into tags and decoded
  characters, and checks that the tags are known, have well-formed attributes and nest.
 */
module Html {
  import opened Common

  datatype Token = Tag(body: string) | Ch(c: char)

  const ELEMENTS := {"p", "h1", "h2", "h3", "h4", "h5", "h6", "blockquote", "ul", "ol", "li",
                     "strong", "em", "u", "a", "figure", "figcaption"}
  const VOID_ELEMENTS := {"img", "hr", "br"}
  const ATTRIBUTES := {"href", "target", "rel", "src", "alt", "loading", "start"}
  const MEDIA_PATH := "/api/v1/public/media/"

  function IndexOf(s: string, c: char): (k: nat)
    ensures k <= |s| && (k < |s| ==> s[k] == c)
    ensures forall i | 0 <= i < k :: s[i] != c
  {
    if s == "" || s[0] == c then 0 else 1 + IndexOf(s[1..], c)
  }

  lemma IndexOfIs(s: string, c: char, k: nat)
    requires k < |s| && s[k] == c && forall i | 0 <= i < k :: s[i] != c
    ensures IndexOf(s, c) == k
  {
  }

  predicate StartsWith(s: string, prefix: string) {
    |prefix| <= |s| && s[..|prefix|] == prefix
  }

  lemma DiffersAtOne(s: string, prefix: string)
    requires |s| >= 2 && |prefix| >= 2 && s[1] != prefix[1]
    ensures !StartsWith(s, prefix)
  {
  }

  /** The character a reference at the head of `s` stands for, and the reference's length. */
  function Reference(s: string): (r: Option<(char, nat)>)
    ensures r.Some? ==> 0 < r.value.1 <= |s|
  {
    if StartsWith(s, "&amp;") then Some(('&', 5))
    else if StartsWith(s, "&lt;") then Some(('<', 4))
    else if StartsWith(s, "&gt;") then Some(('>', 4))
    else if StartsWith(s, "&quot;") then Some(('"', 6))
    else if StartsWith(s, "&#x27;") then Some(('\'', 6))
    else None
  }

  /** The token at the head of `s`, and its length. */
  function Head(s: string): Option<(Token, nat)> {
    if s == "" then None
    else if s[0] == '<' then
      var k := IndexOf(s, '>');
      if k == |s| || '<' in s[1..k] then None else Some((Tag(s[1..k]), k + 1))
    else if s[0] == '>' then None
    else if s[0] == '&' then
      var r := Reference(s);
      if r.Some? then Some((Ch(r.value.0), r.value.1)) else None
    else Some((Ch(s[0]), 1))
  }

  /** All tokens that `head` finds in `s`; none when it gets stuck before the end. */
  function Lex(head: string -> Option<(Token, nat)>, s: string): Option<seq<Token>>
    decreases |s|
  {
    if s == "" then Some([])
    else if head(s).None? || !(0 < head(s).value.1 <= |s|) then None
    else
      var rest := Lex(head, s[head(s).value.1..]);
      if rest.None? then None else Some([head(s).value.0] + rest.value)
  }

  /** All tokens of `s`; none when a tag is not closed or a bare `>` or `&` occurs. */
  function Scan(s: string): Option<seq<Token>> {
    Lex(Head, s)
  }

  function FlatMap<T>(f: Token -> seq<T>, ts: seq<Token>): seq<T> {
    if ts == [] then [] else f(ts[0]) + FlatMap(f, ts[1..])
  }

  function CharOf(t: Token): string {
    if t.Ch? then [t.c] else ""
  }

  /** The text between the tags. */
  function TextOf(ts: seq<Token>): string {
    FlatMap(CharOf, ts)
  }

  /** The length of the ` key="value"` at the head of `a`: a known key, no quote inside the value. */
  function AttributeLength(keys: set<string>, a: string): (r: Option<nat>)
    ensures r.Some? ==> IndexOf(a, '=') + 3 <= r.value <= |a|
  {
    var e := IndexOf(a, '=');
    if e == 0 || e + 1 >= |a| || a[0] != ' ' || a[1..e] !in keys || a[e + 1] != '"' then None
    else
      var q := IndexOf(a[e + 2..], '"');
      if q == |a[e + 2..]| then None else Some(e + q + 3)
  }

  /** Any number of attributes. */
  predicate WellFormedAttributes(keys: set<string>, a: string)
    decreases |a|
  {
    a == "" || (AttributeLength(keys, a).Some? && WellFormedAttributes(keys, a[AttributeLength(keys, a).value..]))
  }

  /** The text of an attribute value, its character references decoded. */
  function Decode(value: string): string {
    if Scan(value).Some? then TextOf(Scan(value).value) else value
  }

  /** The decoded value of the first attribute with this key. */
  function ValueOf(keys: set<string>, a: string, key: string): Option<string>
    decreases |a|
  {
    var n := AttributeLength(keys, a);
    var e := IndexOf(a, '=');
    if n.None? then None
    else if a[1..e] == key then Some(Decode(a[e + 2..n.value - 1]))
    else ValueOf(keys, a[n.value..], key)
  }

  // What a reader is shown besides text: pictures of the media library, and links.
  datatype Shown = Picture(id: string, alt: string) | Link(href: string)

  function ShownBy(t: Token): seq<Shown> {
    if t.Ch? then []
    else
      var n := IndexOf(t.body, ' ');
      ShownByTag(t.body[..n], t.body[n..])
  }

  function ShownByTag(name: string, attributes: string): seq<Shown> {
    if name == "img" then
      var src, alt := ValueOf(ATTRIBUTES, attributes, "src"), ValueOf(ATTRIBUTES, attributes, "alt");
      if src.Some? && alt.Some? && StartsWith(src.value, MEDIA_PATH) then [Picture(src.value[|MEDIA_PATH|..], alt.value)] else []
    else if name == "a" then
      var href := ValueOf(ATTRIBUTES, attributes, "href");
      if href.Some? then [Link(href.value)] else []
    else []
  }

  /** Pictures and links, in order. */
  function ShownIn(ts: seq<Token>): seq<Shown> {
    FlatMap(ShownBy, ts)
  }

  function Sources(shown: seq<Shown>): seq<string> {
    if shown == [] then []
    else Sources(shown[..|shown| - 1]) + (if shown[|shown| - 1].Picture? then [shown[|shown| - 1].id] else [])
  }

  /** The media identities of the pictures, in order. */
  function ImagesOf(ts: seq<Token>): seq<string> {
    Sources(ShownIn(ts))
  }

  /** What an opening tag does to the stack of open elements. */
  function Open(name: string, attributes: string, open: seq<string>): Option<seq<string>> {
    if !WellFormedAttributes(ATTRIBUTES, attributes) then None
    else if name in VOID_ELEMENTS then Some(open)
    else if name in ELEMENTS then Some([name] + open)
    else None
  }

  /** What a token does to the stack of open elements. */
  function Apply(t: Token, open: seq<string>): Option<seq<string>> {
    if t.Ch? then Some(open)
    else if t.body != "" && t.body[0] == '/' then
      if open != [] && open[0] == t.body[1..] then Some(open[1..]) else None
    else
      var n := IndexOf(t.body, ' ');
      Open(t.body[..n], t.body[n..], open)
  }

  /** The open elements after all tags; none when a tag is unknown or closes the wrong element. */
  function Nest(ts: seq<Token>, open: seq<string>): Option<seq<string>> {
    if ts == [] then Some(open)
    else
      var o := Apply(ts[0], open);
      if o.None? then None else Nest(ts[1..], o.value)
  }

  /** Well-nested: whatever is open around it is open after it. */
  ghost predicate Balanced(ts: seq<Token>) {
    forall open :: Nest(ts, open) == Some(open)
  }

  /** `html` is well-nested markup that reads as `text` and shows these pictures and links. */
  ghost predicate Reads(html: string, text: string, shown: seq<Shown>) {
    && Scan(html).Some?
    && Balanced(Scan(html).value)
    && TextOf(Scan(html).value) == text
    && ShownIn(Scan(html).value) == shown
  }

  // ---------- concatenation ----------

  lemma HeadConcat(a: string, b: string)
    requires Head(a).Some?
    ensures Head(a + b) == Head(a)
  {
    if a[0] == '<' {
      var k := IndexOf(a, '>');
      IndexOfIs(a + b, '>', k);
      assert (a + b)[1..k] == a[1..k];
    } else if a[0] == '&' {
      ReferenceConcat(a, b);
    }
  }

  lemma ReferenceConcat(a: string, b: string)
    requires Reference(a).Some?
    ensures Reference(a + b) == Reference(a)
  {
    forall p: string | |p| <= |a| ensures StartsWith(a + b, p) == StartsWith(a, p) {
      assert (a + b)[..|p|] == a[..|p|];
    }
    assert |a| < 5 ==> a[..4] == "&lt;" || a[..4] == "&gt;";
  }

  lemma {:induction false} LexConcat(head: string -> Option<(Token, nat)>, a: string, b: string)
    requires forall x, y | head(x).Some? :: head(x + y) == head(x)
    requires Lex(head, a).Some? && Lex(head, b).Some?
    ensures Lex(head, a + b) == Some(Lex(head, a).value + Lex(head, b).value)
    decreases |a|
  {
    if a == "" {
      assert a + b == b && Lex(head, a).value + Lex(head, b).value == Lex(head, b).value;
    } else {
      var n := head(a).value.1;
      LexConcat(head, a[n..], b);
      assert head(a + b) == head(a) && (a + b)[n..] == a[n..] + b;
      var first := [head(a).value.0];
      assert first + (Lex(head, a[n..]).value + Lex(head, b).value) == (first + Lex(head, a[n..]).value) + Lex(head, b).value;
    }
  }

  lemma LexOne(head: string -> Option<(Token, nat)>, s: string)
    requires s != "" && head(s).Some? && head(s).value.1 == |s|
    ensures Lex(head, s) == Some([head(s).value.0])
  {
    var rest := s[|s|..];
    assert rest == "" && Lex(head, rest) == Some([]) && [head(s).value.0] + [] == [head(s).value.0];
  }

  lemma ScanConcat(a: string, b: string)
    requires Scan(a).Some? && Scan(b).Some?
    ensures Scan(a + b) == Some(Scan(a).value + Scan(b).value)
  {
    forall x, y | Head(x).Some? ensures Head(x + y) == Head(x) { HeadConcat(x, y); }
    LexConcat(Head, a, b);
  }

  lemma FlatMapOne<T>(f: Token -> seq<T>, t: Token)
    ensures FlatMap(f, [t]) == f(t)
  {
    assert [t][1..] == [] && f(t) + [] == f(t);
  }

  lemma {:induction false} FlatMapConcat<T>(f: Token -> seq<T>, a: seq<Token>, b: seq<Token>)
    ensures FlatMap(f, a + b) == FlatMap(f, a) + FlatMap(f, b)
  {
    if a == [] {
      assert a + b == b;
    } else {
      FlatMapConcat(f, a[1..], b);
      assert (a + b)[1..] == a[1..] + b;
    }
  }

  lemma NestOne(t: Token, open: seq<string>)
    ensures Nest([t], open) == Apply(t, open)
  {
    assert [t][1..] == [];
  }

  lemma NestCons(t: Token, ts: seq<Token>, open: seq<string>)
    requires Apply(t, open).Some?
    ensures Nest([t] + ts, open) == Nest(ts, Apply(t, open).value)
  {
    assert ([t] + ts)[1..] == ts;
  }

  lemma {:induction false} NestConcat(a: seq<Token>, b: seq<Token>, open: seq<string>)
    requires Nest(a, open).Some?
    ensures Nest(a + b, open) == Nest(b, Nest(a, open).value)
  {
    if a == [] {
      assert a + b == b;
    } else {
      NestConcat(a[1..], b, Apply(a[0], open).value);
      assert a + b == [a[0]] + (a[1..] + b);
      NestCons(a[0], a[1..] + b, open);
    }
  }

  lemma {:induction false} SourcesConcat(a: seq<Shown>, b: seq<Shown>)
    ensures Sources(a + b) == Sources(a) + Sources(b)
  {
    if b == [] {
      assert a + b == a && Sources(a) + [] == Sources(a);
    } else {
      assert (a + b)[..|a + b| - 1] == a + b[..|b| - 1];
      SourcesConcat(a, b[..|b| - 1]);
    }
  }

  lemma ReadsConcat(h: string, t: string, i: seq<Shown>, h': string, t': string, i': seq<Shown>)
    requires Reads(h, t, i) && Reads(h', t', i')
    ensures Reads(h + h', t + t', i + i')
  {
    ScanConcat(h, h');
    var a, b := Scan(h).value, Scan(h').value;
    FlatMapConcat(CharOf, a, b);
    FlatMapConcat(ShownBy, a, b);
    forall open ensures Nest(a + b, open) == Some(open) { NestConcat(a, b, open); }
  }
}
