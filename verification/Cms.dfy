/**
  Blog publishing as a state machine over posts, media assets and the tenant's site state:
  every operation is one transaction that commits whole or leaves the state as it was.
 */
module Cms {
  import opened Common
  import opened RichText
  import opened Rendering
  import SiteBuilds

  datatype Field =
    Title | Slug | Summary | ContentDocument | CoverImage | SeoTitle | SeoDescription | OgImage | Locale

  datatype Value = Missing | Text(text: string) | Document(document: Json) | Media(id: Uuid)

  datatype PostStatus = Draft | Published | Archived

  datatype Post = Post(
    fields: map<Field, Value>,
    html: string,
    status: PostStatus,
    publishedAt: Option<int>,
    references: set<Uuid>)

  datatype Asset = Asset(ready: bool, public: bool)

  datatype State = State(posts: seq<Post>, media: map<Uuid, Asset>, site: SiteBuilds.Site)

  datatype Reply = Done | NotFound | DocumentInvalid | MediaRejected | NotRenderable | PublishInvalid | Conflict

  // ---------- reading a post ----------

  function Read(fields: map<Field, Value>, f: Field): Value {
    if f in fields then fields[f] else Missing
  }

  function DocumentOf(fields: map<Field, Value>): Json {
    if Read(fields, ContentDocument).Document? then Read(fields, ContentDocument).document else Null
  }

  function MediaAt(fields: map<Field, Value>, f: Field): set<Uuid> {
    if Read(fields, f).Media? then {Read(fields, f).id} else {}
  }

  /** Inline images, cover and social image. */
  function AllMedia(lib: Library, fields: map<Field, Value>): set<Uuid> {
    Ids(ImagesAll(lib, Children(DocumentOf(fields)))) + MediaAt(fields, CoverImage) + MediaAt(fields, OgImage)
  }

  /** What the request schemas let through for a field. */
  predicate Typed(f: Field, v: Value) {
    match f
    case ContentDocument => v.Missing? || v.Document?
    case CoverImage => v.Missing? || v.Media?
    case OgImage => v.Missing? || v.Media?
    case _ => v.Missing? || v.Text?
  }

  predicate AllTyped(fields: map<Field, Value>) {
    forall f | f in fields :: Typed(f, fields[f])
  }

  predicate MediaFine(media: map<Uuid, Asset>, ids: set<Uuid>, public: bool) {
    forall id | id in ids :: id in media && (public ==> media[id].ready && media[id].public)
  }

  predicate IsSlug(s: string) {
    && s != ""
    && (forall c | c in s :: 'a' <= c <= 'z' || '0' <= c <= '9' || c == '-')
    && s[0] != '-' && s[|s| - 1] != '-'
    && forall i | 0 <= i < |s| - 1 :: !(s[i] == '-' && s[i + 1] == '-')
  }

  /** The table's own constraints on a row at `id`: required columns, and a slug of its own. */
  predicate Storable(posts: seq<Post>, id: nat, fields: map<Field, Value>) {
    && !Read(fields, Title).Missing? && !Read(fields, Slug).Missing?
    && forall k | 0 <= k < |posts| && k != id :: Read(posts[k].fields, Slug) != Read(fields, Slug)
  }

  // ---------- operations: app/blog/service.py ----------

  /** What saving these fields in this status calls for before anything is written. */
  function CheckSave(lib: Library, s: State, fields: map<Field, Value>, status: PostStatus): Reply {
    var public := status == Published;
    if !IsAcceptable(lib, DocumentOf(fields), public) then DocumentInvalid
    else if !MediaFine(s.media, AllMedia(lib, fields), public) then MediaRejected
    else if RenderDocument(lib, DocumentOf(fields)).None? then NotRenderable
    else Done
  }

  /** The row that a save writes: rendered HTML and references always follow the document. */
  function Saved(lib: Library, fields: map<Field, Value>, status: PostStatus, publishedAt: Option<int>): Post
    requires RenderDocument(lib, DocumentOf(fields)).Some?
  {
    Post(fields, RenderDocument(lib, DocumentOf(fields)).value, status, publishedAt,
         Ids(ImagesAll(lib, Children(DocumentOf(fields)))))
  }

  function Create(lib: Library, s: State, fields: map<Field, Value>): (State, Reply) {
    if !AllTyped(fields) then (s, DocumentInvalid)
    else if CheckSave(lib, s, fields, Draft) != Done then (s, CheckSave(lib, s, fields, Draft))
    else if !Storable(s.posts, |s.posts|, fields) then (s, Conflict)
    else (s.(posts := s.posts + [Saved(lib, fields, Draft, None)]), Done)
  }

  function Bump(s: State, now: int): State {
    s.(site := SiteBuilds.ContentChanged(s.site, now))
  }

  /** The row at `id` is saved; if the public sees it, that is a content change. */
  function Resave(lib: Library, s: State, id: nat, fields: map<Field, Value>, now: int): State
    requires id < |s.posts| && RenderDocument(lib, DocumentOf(fields)).Some?
  {
    var p := s.posts[id];
    var saved := s.(posts := s.posts[id := Saved(lib, fields, p.status, p.publishedAt)]);
    if p.status == Published then Bump(saved, now) else saved
  }

  predicate Changes(p: Post, updates: map<Field, Value>) {
    exists f | f in updates :: Read(p.fields, f) != updates[f]
  }

  /** A save that is not a change does nothing; a change of a published post is a public save. */
  function Update(lib: Library, s: State, id: nat, updates: map<Field, Value>, now: int): (State, Reply) {
    if id >= |s.posts| then (s, NotFound)
    else
      var p := s.posts[id];
      var fields := p.fields + updates;
      if !AllTyped(updates) || (ContentDocument in updates && updates[ContentDocument].Missing?) then (s, DocumentInvalid)
      else if !Changes(p, updates) then (s, Done)
      else if CheckSave(lib, s, fields, p.status) != Done then (s, CheckSave(lib, s, fields, p.status))
      else if !Storable(s.posts, id, fields) then (s, Conflict)
      else (Resave(lib, s, id, fields, now), Done)
  }

  function Publish(lib: Library, s: State, id: nat, now: int): (State, Reply) {
    if id >= |s.posts| then (s, NotFound)
    else
      var p := s.posts[id];
      var title, slug := Read(p.fields, Title), Read(p.fields, Slug);
      if p.status == Published then (s, Done)
      else if !title.Text? || !HasInk(lib, title.text) || !slug.Text? || !IsSlug(slug.text) then (s, PublishInvalid)
      else if CheckSave(lib, s, p.fields, Published) != Done then (s, CheckSave(lib, s, p.fields, Published))
      else (Bump(s.(posts := s.posts[id := Saved(lib, p.fields, Published, Some(now))]), now), Done)
  }

  function Archive(s: State, id: nat, now: int): (State, Reply) {
    if id >= |s.posts| then (s, NotFound)
    else
      var p := s.posts[id];
      var archived := s.(posts := s.posts[id := p.(status := Archived)]);
      if p.status == Archived then (s, Done)
      else (if p.status == Published then Bump(archived, now) else archived, Done)
  }

  /** The generic DELETE of the content API: it archives without telling the build service. */
  function Delete(s: State, id: nat): State {
    if id >= |s.posts| then s else s.(posts := s.posts[id := s.posts[id].(status := Archived)])
  }

  // ---------- media: app/media/router.py ----------

  function Upload(s: State, id: Uuid, public: bool): State {
    if id in s.media then s else s.(media := s.media[id := Asset(false, public)])
  }

  function CompleteUpload(s: State, id: Uuid): State {
    if id in s.media then s.(media := s.media[id := s.media[id].(ready := true)]) else s
  }

  // ---------- runs ----------

  // Everything the build protocol does by itself.
  type BuildEvent = e: SiteBuilds.Event | !e.ContentChange? witness SiteBuilds.Configure(true)

  datatype Event =
    | CreatePost(fields: map<Field, Value>)
    | UpdatePost(id: nat, updates: map<Field, Value>, now: int)
    | PublishPost(id: nat, now: int)
    | ArchivePost(id: nat, now: int)
    | DeletePost(id: nat)
    | UploadMedia(media: Uuid, public: bool)
    | CompleteMedia(media: Uuid)
    | Build(event: BuildEvent)

  function Step(lib: Library, s: State, e: Event): State {
    match e
    case CreatePost(fields) => Create(lib, s, fields).0
    case UpdatePost(id, updates, now) => Update(lib, s, id, updates, now).0
    case PublishPost(id, now) => Publish(lib, s, id, now).0
    case ArchivePost(id, now) => Archive(s, id, now).0
    case DeletePost(id) => Delete(s, id)
    case UploadMedia(id, public) => Upload(s, id, public)
    case CompleteMedia(id) => CompleteUpload(s, id)
    case Build(event) => s.(site := SiteBuilds.Step(s.site, event))
  }

  const EMPTY := State([], map[], SiteBuilds.EMPTY_SITE)

  function Run(lib: Library, es: seq<Event>): State {
    if es == [] then EMPTY else Step(lib, Run(lib, es[..|es| - 1]), es[|es| - 1])
  }

  /** What the public queries show. */
  function PublishedPosts(posts: seq<Post>): map<nat, Post> {
    map id | 0 <= id < |posts| && posts[id].status == Published && posts[id].publishedAt.Some? :: posts[id]
  }
}
