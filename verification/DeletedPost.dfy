/** A run after which the revision no longer identifies the published site. */
module DeletedPost {
  import opened Common
  import opened RichText
  import opened Rendering
  import SiteBuilds
  import opened Cms
  import opened CmsSafety

  const RULE := Obj(map["type" := Str("horizontalRule")])
  const DOCUMENT := Obj(map["type" := Str("doc"), "content" := List([RULE])])

  predicate Wraps(document: Json, j: Json) {
    && document.Obj? && OnlyKeys(document, {"type", "content"}) && TypeOf(document) == Str("doc")
    && GetList(document, "content").List? && Children(document) == [j]
  }

  lemma OnlyChild(lib: Library, j: Json)
    ensures TallyAll(lib, [j]) == Counts(0, 0, 0).Plus(Tally(lib, j)) && HeightAll([j]) == Max(0, Height(j))
    ensures ImagesAll(lib, [j]) == [] + Images(lib, j)
  {
    assert [j][..0] == [];
  }

  lemma RuleFits(lib: Library)
    ensures IsNode(lib, RULE) && HasType(RULE, ROOT_TYPES) && !NullStart(RULE) && Wraps(DOCUMENT, RULE)
    ensures Tally(lib, RULE) == Counts(1, 0, 1) && Height(RULE) == 1 && Images(lib, RULE) == []
  {
    assert Children(RULE) == [];
  }

  lemma WrappedIsAccepted(lib: Library, document: Json, j: Json)
    requires Wraps(document, j) && HasType(j, ROOT_TYPES) && IsNode(lib, j)
    requires Tally(lib, j) == Counts(1, 0, 1) && Height(j) == 1
    ensures IsAcceptable(lib, document, true)
  {
    OnlyChild(lib, j);
    WrappedIsDocument(lib, document, j);
  }

  lemma WrappedIsDocument(lib: Library, document: Json, j: Json)
    requires Wraps(document, j) && HasType(j, ROOT_TYPES) && IsNode(lib, j)
    ensures IsDocument(lib, document)
  {
    forall c | c in Children(document) ensures HasType(c, ROOT_TYPES) && IsNode(lib, c) { assert c == j; }
  }

  lemma WrappedRenders(lib: Library, document: Json, j: Json)
    requires IsDocument(lib, document) && Children(document) == [j] && !NullStart(j)
    ensures RenderDocument(lib, document).Some?
  {
    DocumentReads(lib, document);
  }

  function Fields(document: Json): map<Field, Value> {
    map[Title := Text("a"), Slug := Text("a"), ContentDocument := Document(document)]
  }

  /** Fields that every save accepts, in whatever status. */
  ghost predicate Savable(lib: Library, fields: map<Field, Value>) {
    && AllTyped(fields) && Read(fields, Title) == Text("a") && Read(fields, Slug) == Text("a")
    && forall s, status :: CheckSave(lib, s, fields, status) == Done
  }

  lemma AcceptedWithout(lib: Library, document: Json)
    requires IsAcceptable(lib, document, true)
    ensures forall public :: IsAcceptable(lib, document, public)
  {
  }

  lemma SavesAny(lib: Library, s: State, fields: map<Field, Value>, status: PostStatus)
    requires IsAcceptable(lib, DocumentOf(fields), status == Published) && RenderDocument(lib, DocumentOf(fields)).Some?
    requires AllMedia(lib, fields) == {}
    ensures CheckSave(lib, s, fields, status) == Done
  {
  }

  lemma NoMedia(lib: Library, fields: map<Field, Value>)
    requires ImagesAll(lib, Children(DocumentOf(fields))) == []
    requires CoverImage !in fields && OgImage !in fields
    ensures AllMedia(lib, fields) == {}
  {
  }

  lemma AcceptedIsSavable(lib: Library, fields: map<Field, Value>)
    requires IsAcceptable(lib, DocumentOf(fields), true) && RenderDocument(lib, DocumentOf(fields)).Some?
    requires AllMedia(lib, fields) == {}
    ensures forall s, status :: CheckSave(lib, s, fields, status) == Done
  {
    forall s, status ensures CheckSave(lib, s, fields, status) == Done {
      AcceptedWithout(lib, DocumentOf(fields));
      SavesAny(lib, s, fields, status);
    }
  }

  lemma Creates(lib: Library, fields: map<Field, Value>)
    requires Savable(lib, fields)
    ensures var s := Step(lib, EMPTY, CreatePost(fields));
            |s.posts| == 1 && s.posts[0].fields == fields && s.posts[0].status == Draft
  {
    assert CheckSave(lib, EMPTY, fields, Draft) == Done;
  }

  lemma Publishes(lib: Library, s: State, now: int, fields: map<Field, Value>)
    requires Savable(lib, fields) && !lib.space('a')
    requires |s.posts| == 1 && s.posts[0].fields == fields && s.posts[0].status == Draft
    ensures var s' := Step(lib, s, PublishPost(0, now));
            |s'.posts| == 1 && s'.posts[0].status == Published
  {
    assert CheckSave(lib, s, fields, Published) == Done;
    assert 'a' in "a" && HasInk(lib, "a");
  }

  lemma Appears(lib: Library, fields: map<Field, Value>)
    requires Savable(lib, fields) && !lib.space('a')
    ensures var s := Run(lib, [CreatePost(fields), PublishPost(0, 0)]);
            |s.posts| == 1 && s.posts[0].status == Published
  {
    var one := [CreatePost(fields)];
    var two := [CreatePost(fields), PublishPost(0, 0)];
    assert two[..1] == one && one[..0] == [];
    assert Run(lib, one[..0]) == EMPTY;
    var s := Step(lib, EMPTY, one[0]);
    assert Run(lib, one) == s;
    Creates(lib, fields);
    Publishes(lib, s, 0, fields);
    assert Run(lib, two) == Step(lib, s, two[1]);
  }

  lemma OneMore(lib: Library, es: seq<Event>, e: Event)
    ensures Run(lib, es + [e]) == Step(lib, Run(lib, es), e)
  {
    assert (es + [e])[..|es|] == es;
  }

  lemma FieldsAsGiven(document: Json)
    ensures var fields := Fields(document);
            && AllTyped(fields) && Read(fields, Title) == Text("a") && Read(fields, Slug) == Text("a")
            && DocumentOf(fields) == document && CoverImage !in fields && OgImage !in fields
  {
  }

  lemma FieldsAreSavable(lib: Library, document: Json, fields: map<Field, Value>)
    requires IsAcceptable(lib, document, true) && RenderDocument(lib, document).Some? && ImagesAll(lib, Children(document)) == []
    requires DocumentOf(fields) == document && CoverImage !in fields && OgImage !in fields
    requires AllTyped(fields) && Read(fields, Title) == Text("a") && Read(fields, Slug) == Text("a")
    ensures Savable(lib, fields)
  {
    NoMedia(lib, fields);
    AcceptedIsSavable(lib, fields);
  }

  lemma WrappedIsSavable(lib: Library, document: Json, j: Json, fields: map<Field, Value>)
    requires Wraps(document, j) && HasType(j, ROOT_TYPES) && IsNode(lib, j) && !NullStart(j)
    requires Tally(lib, j) == Counts(1, 0, 1) && Height(j) == 1 && Images(lib, j) == []
    requires DocumentOf(fields) == document && CoverImage !in fields && OgImage !in fields
    requires AllTyped(fields) && Read(fields, Title) == Text("a") && Read(fields, Slug) == Text("a")
    ensures Savable(lib, fields)
  {
    WrappedIsAccepted(lib, document, j);
    WrappedRenders(lib, document, j);
    OnlyChild(lib, j);
    FieldsAreSavable(lib, document, fields);
  }

  lemma DeletedUnseen(lib: Library, fields: map<Field, Value>)
    requires Savable(lib, fields) && !lib.space('a')
    ensures var es := [CreatePost(fields), PublishPost(0, 0)];
            var before, after := Run(lib, es), Run(lib, es + [DeletePost(0)]);
            before.site == after.site && PublishedPosts(before.posts) != PublishedPosts(after.posts)
  {
    var es := [CreatePost(fields), PublishPost(0, 0)];
    Appears(lib, fields);
    DerivedDataAgree(lib, es);
    DeleteHides(lib, Run(lib, es), 0);
    OneMore(lib, es, DeletePost(0));
  }

  /** A post is created, published and deleted: the deletion hides it and leaves the revision as it was. */
  lemma DeletedUnnoticed(lib: Library) returns (es: seq<Event>)
    requires !lib.space('a')
    ensures es == [CreatePost(Fields(DOCUMENT)), PublishPost(0, 0)]
    ensures var before, after := Run(lib, es), Run(lib, es + [DeletePost(0)]);
            before.site == after.site && PublishedPosts(before.posts) != PublishedPosts(after.posts)
  {
    RuleFits(lib);
    FieldsAsGiven(DOCUMENT);
    WrappedIsSavable(lib, DOCUMENT, RULE, Fields(DOCUMENT));
    es := [CreatePost(Fields(DOCUMENT)), PublishPost(0, 0)];
    DeletedUnseen(lib, Fields(DOCUMENT));
  }
}
