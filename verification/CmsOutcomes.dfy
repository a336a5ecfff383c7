/**
  What each operation of the blog does: when it is accepted, which row it writes, and what the
  public sees of it.
 */
module CmsOutcomes {
  import opened Common
  import opened RichText
  import opened Rendering
  import Outlines
  import SiteBuilds
  import opened Cms
  import opened CmsSafety

  /** These fields may be saved in this status: the document is accepted and renders, and its media are there. */
  predicate MayBeSaved(lib: Library, s: State, fields: map<Field, Value>, status: PostStatus) {
    && IsAcceptable(lib, DocumentOf(fields), status == Published)
    && MediaFine(s.media, AllMedia(lib, fields), status == Published)
    && RenderDocument(lib, DocumentOf(fields)).Some?
  }

  /** A save is refused for the first of the three things that is wrong. */
  lemma ChecksExactly(lib: Library, s: State, fields: map<Field, Value>, status: PostStatus)
    ensures var reply := CheckSave(lib, s, fields, status);
            && (reply == Done <==> MayBeSaved(lib, s, fields, status))
            && (reply == DocumentInvalid <==> !IsAcceptable(lib, DocumentOf(fields), status == Published))
            && (reply == MediaRejected ==> !MediaFine(s.media, AllMedia(lib, fields), status == Published))
            && (reply == NotRenderable ==> RenderDocument(lib, DocumentOf(fields)).None?)
            && reply in {Done, DocumentInvalid, MediaRejected, NotRenderable}
  {
  }

  /** The row holds these fields in this status, with what is derived from them. */
  ghost predicate Holds(lib: Library, p: Post, fields: map<Field, Value>, status: PostStatus, publishedAt: Option<int>) {
    && p.fields == fields && p.status == status && p.publishedAt == publishedAt
    && RenderDocument(lib, DocumentOf(fields)) == Some(p.html)
    && p.references == Ids(ImagesAll(lib, Children(DocumentOf(fields))))
  }

  // ---------- drafts ----------

  lemma CreatesExactly(lib: Library, s: State, fields: map<Field, Value>)
    ensures var (s', reply) := Create(lib, s, fields);
            && (reply == Done <==> AllTyped(fields) && MayBeSaved(lib, s, fields, Draft) && Storable(s.posts, |s.posts|, fields))
            && (reply != Done ==> s' == s)
            && (reply == Done ==>
                  && s' == s.(posts := s'.posts) && OneMore(s.posts, s'.posts)
                  && Holds(lib, s'.posts[|s.posts|], fields, Draft, None)
                  && PublishedPosts(s'.posts) == PublishedPosts(s.posts))
  {
    ChecksExactly(lib, s, fields, Draft);
    DraftIsHidden(s.posts, Create(lib, s, fields).0.posts);
  }

  lemma DraftIsHidden(posts: seq<Post>, after: seq<Post>)
    ensures OneMore(posts, after) && after[|posts|].status == Draft ==> PublishedPosts(after) == PublishedPosts(posts)
  {
  }

  // ---------- what one row shows ----------

  // The public sees the row at `id` exactly while it is published, and then as it is.
  lemma RowSeen(posts: seq<Post>, after: seq<Post>, id: nat)
    requires id < |posts| && OnlyRow(posts, after, id) && (posts[id].status == Published ==> posts[id].publishedAt.Some?)
    ensures after[id].status == Published && after[id].publishedAt.Some? ==> PublishedPosts(after) == PublishedPosts(posts)[id := after[id]]
    ensures after[id].status != Published ==> PublishedPosts(after) == PublishedPosts(posts) - {id}
    ensures id in PublishedPosts(posts) <==> posts[id].status == Published
  {
  }

  lemma PublishedHasTime(lib: Library, s: State, id: nat)
    requires Inv(lib, s) && id < |s.posts|
    ensures s.posts[id].status == Published ==> s.posts[id].publishedAt.Some?
  {
    assert PostOk(lib, s.media, s.posts[id]);
  }

  lemma RowShows(lib: Library, s: State, posts: seq<Post>, id: nat)
    requires Inv(lib, s) && id < |s.posts| && OnlyRow(s.posts, posts, id)
    ensures posts[id].status == Published && posts[id].publishedAt.Some? ==> PublishedPosts(posts) == PublishedPosts(s.posts)[id := posts[id]]
    ensures posts[id].status != Published ==> PublishedPosts(posts) == PublishedPosts(s.posts) - {id}
    ensures id in PublishedPosts(s.posts) <==> s.posts[id].status == Published
    ensures s.posts[id].status == Published ==> s.posts[id].publishedAt.Some?
  {
    PublishedHasTime(lib, s, id);
    RowSeen(s.posts, posts, id);
  }

  // ---------- updates ----------

  /** The request is one that the schema and the service let through. */
  predicate WellFormed(updates: map<Field, Value>) {
    AllTyped(updates) && !(ContentDocument in updates && updates[ContentDocument].Missing?)
  }

  /** An update that may be saved. */
  predicate MayUpdate(lib: Library, s: State, id: nat, updates: map<Field, Value>) {
    && id < |s.posts| && WellFormed(updates)
    && MayBeSaved(lib, s, s.posts[id].fields + updates, s.posts[id].status)
    && Storable(s.posts, id, s.posts[id].fields + updates)
  }

  /** An update is done exactly when it is a change that may be saved, or no change; anything else leaves all as it was. */
  lemma UpdateAccepts(lib: Library, s: State, id: nat, updates: map<Field, Value>, now: int)
    ensures var (s', reply) := Update(lib, s, id, updates, now);
            && (reply == NotFound <==> id >= |s.posts|)
            && (reply == Done <==> id < |s.posts| && WellFormed(updates) && (Changes(s.posts[id], updates) ==> MayUpdate(lib, s, id, updates)))
            && (reply != Done || !Changes(s.posts[id], updates) ==> s' == s)
  {
    if id < |s.posts| {
      ChecksExactly(lib, s, s.posts[id].fields + updates, s.posts[id].status);
    }
  }

  lemma ResavesExactly(lib: Library, s: State, id: nat, fields: map<Field, Value>, now: int)
    requires id < |s.posts| && RenderDocument(lib, DocumentOf(fields)).Some?
    ensures var (s', p) := (Resave(lib, s, id, fields, now), s.posts[id]);
            && s'.media == s.media && OnlyRow(s.posts, s'.posts, id)
            && Holds(lib, s'.posts[id], fields, p.status, p.publishedAt)
            && s'.site == if p.status == Published then SiteBuilds.ContentChanged(s.site, now) else s.site
  {
  }

  /** The saved change: that row alone, with the updated fields; of a published post it raises the revision by one. */
  lemma UpdateSaves(lib: Library, s: State, id: nat, updates: map<Field, Value>, now: int)
    requires MayUpdate(lib, s, id, updates) && Changes(s.posts[id], updates)
    ensures var (s', p) := (Update(lib, s, id, updates, now).0, s.posts[id]);
            && s'.media == s.media && OnlyRow(s.posts, s'.posts, id)
            && Holds(lib, s'.posts[id], p.fields + updates, p.status, p.publishedAt)
            && s'.site == if p.status == Published then SiteBuilds.ContentChanged(s.site, now) else s.site
  {
    ChecksExactly(lib, s, s.posts[id].fields + updates, s.posts[id].status);
    ResavesExactly(lib, s, id, s.posts[id].fields + updates, now);
  }

  /** The public sees an update of a published post, there alone, and none of any other. */
  lemma UpdateShows(lib: Library, s: State, id: nat, updates: map<Field, Value>, now: int)
    requires Inv(lib, s) && MayUpdate(lib, s, id, updates) && Changes(s.posts[id], updates)
    ensures var (s', p) := (Update(lib, s, id, updates, now).0, s.posts[id]);
            && |s'.posts| == |s.posts| && s'.posts[id].fields == p.fields + updates
            && PublishedPosts(s'.posts)
               == if p.status == Published then PublishedPosts(s.posts)[id := s'.posts[id]] else PublishedPosts(s.posts)
  {
    UpdateSaves(lib, s, id, updates, now);
    RowShows(lib, s, Update(lib, s, id, updates, now).0.posts, id);
  }

  // ---------- publication ----------

  /** The post has a title, a proper slug, content, and media that the public may see. */
  predicate MayPublish(lib: Library, s: State, id: nat) {
    && id < |s.posts|
    && var title, slug := Read(s.posts[id].fields, Title), Read(s.posts[id].fields, Slug);
    && title.Text? && HasInk(lib, title.text) && slug.Text? && IsSlug(slug.text)
    && MayBeSaved(lib, s, s.posts[id].fields, Published)
  }

  /** An unpublished post that may be published is, as of now, and raises the revision by one; nothing else is changed. */
  lemma PublishesExactly(lib: Library, s: State, id: nat, now: int)
    ensures var (s', reply) := Publish(lib, s, id, now);
            && (reply == NotFound <==> id >= |s.posts|)
            && (reply == Done <==> id < |s.posts| && (s.posts[id].status == Published || MayPublish(lib, s, id)))
            && (reply != Done || s.posts[id].status == Published ==> s' == s)
            && (reply == Done && s.posts[id].status != Published ==>
                  && s'.media == s.media && OnlyRow(s.posts, s'.posts, id)
                  && Holds(lib, s'.posts[id], s.posts[id].fields, Published, Some(now))
                  && s'.site == SiteBuilds.ContentChanged(s.site, now))
  {
    if id < |s.posts| { ChecksExactly(lib, s, s.posts[id].fields, Published); }
  }

  /** The public gains exactly that post, with the fields it had. */
  lemma PublicationShows(lib: Library, s: State, id: nat, now: int)
    requires Inv(lib, s) && MayPublish(lib, s, id) && s.posts[id].status != Published
    ensures var s' := Publish(lib, s, id, now).0;
            && id !in PublishedPosts(s.posts) && |s'.posts| == |s.posts|
            && PublishedPosts(s'.posts) == PublishedPosts(s.posts)[id := s'.posts[id]]
            && id in PublishedPosts(s'.posts) && s'.posts[id].fields == s.posts[id].fields
  {
    PublishesExactly(lib, s, id, now);
    RowShows(lib, s, Publish(lib, s, id, now).0.posts, id);
  }

  // ---------- archiving ----------

  /** The post is archived and otherwise unchanged; if it was published, the revision rises by one. */
  lemma ArchivesExactly(s: State, id: nat, now: int)
    ensures var (s', reply) := Archive(s, id, now);
            && reply == (if id < |s.posts| then Done else NotFound)
            && (reply == NotFound ==> s' == s)
            && (reply == Done ==>
                  && s'.media == s.media && OnlyRow(s.posts, s'.posts, id)
                  && s'.posts[id] == s.posts[id].(status := Archived)
                  && s'.site == if s.posts[id].status == Published then SiteBuilds.ContentChanged(s.site, now) else s.site)
  {
  }

  /** The public loses exactly that post, however it was archived. */
  lemma ArchivingHides(lib: Library, s: State, id: nat, now: int)
    requires Inv(lib, s) && id < |s.posts|
    ensures PublishedPosts(Archive(s, id, now).0.posts) == PublishedPosts(s.posts) - {id}
    ensures PublishedPosts(Delete(s, id).posts) == PublishedPosts(s.posts) - {id}
  {
    ArchivesExactly(s, id, now);
    RowShows(lib, s, Archive(s, id, now).0.posts, id);
    RowShows(lib, s, Delete(s, id).posts, id);
  }

  /** The generic DELETE does the same to the row, and nothing to the site. */
  lemma DeletesExactly(s: State, id: nat)
    ensures var s' := Delete(s, id);
            && s'.media == s.media && s'.site == s.site
            && (id >= |s.posts| ==> s' == s)
            && (id < |s.posts| ==> OnlyRow(s.posts, s'.posts, id) && s'.posts[id] == s.posts[id].(status := Archived))
  {
  }

  // ---------- media ----------

  /** An upload starts unready under a new id; completing it makes it ready, and changes nothing else. */
  lemma UploadsExactly(s: State, id: Uuid, public: bool)
    ensures Upload(s, id, public) == (if id in s.media then s else s.(media := s.media[id := Asset(false, public)]))
    ensures var s' := CompleteUpload(s, id);
            && s' == s.(media := s'.media) && s'.media.Keys == s.media.Keys
            && forall k | k in s.media :: s'.media[k].public == s.media[k].public && (s'.media[k].ready <==> s.media[k].ready || k == id)
  {
  }

  // ---------- the stored HTML ----------

  /** In every reachable state a post's stored HTML reads as exactly the outline of its document. */
  lemma StoredHtmlReadsAs(lib: Library, es: seq<Event>, id: nat)
    requires id < |Run(lib, es).posts|
    ensures var p := Run(lib, es).posts[id];
            Outlines.ReadsAs(p.html, Outlines.OutlineAll(lib, Children(DocumentOf(p.fields))))
  {
    DerivedDataAgree(lib, es);
    Outlines.DocumentReadsAs(lib, DocumentOf(Run(lib, es).posts[id].fields));
  }
}
