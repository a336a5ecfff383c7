/**
  The blog service over its tables: each method is one transaction on the posts, the media
  assets and, for a public change, the tenant's site state.
 */
module BlogServices {
  import opened Common
  import opened RichText
  import opened Rendering
  import opened Cms
  import TenantSites

  class BlogService {
    var posts: seq<Post>
    var media: map<Uuid, Asset>
    const site: TenantSites.TenantSite

    ghost function View(): State
      reads this, site
    {
      State(posts, media, site.State())
    }

    constructor ()
      ensures View() == EMPTY && fresh(site)
    {
      posts, media := [], map[];
      site := new TenantSites.TenantSite();
    }

    method ValidateMedia(ids: set<Uuid>, public: bool) returns (fine: bool)
      ensures fine <==> MediaFine(media, ids, public)
    {
      var rest := ids;
      while rest != {}
        invariant rest <= ids && MediaFine(media, ids - rest, public)
      {
        var id :| id in rest;
        if id !in media { return false; }
        if public && !(media[id].ready && media[id].public) { return false; }
        rest := rest - {id};
      }
      assert ids - {} == ids;
      return true;
    }

    /** What a save of these fields is answered with; the document is validated and rendered here. */
    method Check(lib: Library, fields: map<Field, Value>, status: PostStatus) returns (reply: Reply)
      ensures reply == CheckSave(lib, View(), fields, status)
    {
      var verdict := ValidateDocument(lib, DocumentOf(fields), status == Published);
      if !verdict.Accepted? { return DocumentInvalid; }
      var ids := ReferencedMediaIds(lib, DocumentOf(fields));
      var fine := ValidateMedia(ids + MediaAt(fields, CoverImage) + MediaAt(fields, OgImage), status == Published);
      if !fine { return MediaRejected; }
      if RenderDocument(lib, DocumentOf(fields)).None? { return NotRenderable; }
      return Done;
    }

    method Save(lib: Library, fields: map<Field, Value>, status: PostStatus, publishedAt: Option<int>) returns (post: Post)
      requires RenderDocument(lib, DocumentOf(fields)).Some? && IsDocument(lib, DocumentOf(fields))
      ensures post == Saved(lib, fields, status, publishedAt)
    {
      var html := RenderDocument(lib, DocumentOf(fields)).value;
      var references := ReferencedMediaIds(lib, DocumentOf(fields));
      post := Post(fields, html, status, publishedAt, references);
    }

    method Create(lib: Library, fields: map<Field, Value>) returns (reply: Reply)
      modifies this`posts
      ensures (View(), reply) == Cms.Create(lib, old(View()), fields)
    {
      if !AllTyped(fields) { return DocumentInvalid; }
      reply := Check(lib, fields, Draft);
      if reply != Done { return; }
      if !Storable(posts, |posts|, fields) { return Conflict; }
      var post := Save(lib, fields, Draft, None);
      posts := posts + [post];
    }

    /** Sets the given fields one by one and notes whether any of them was different. */
    method SetFields(current: map<Field, Value>, updates: map<Field, Value>) returns (fields: map<Field, Value>, changed: bool)
      ensures fields == current + updates
      ensures changed <==> exists f | f in updates :: Read(current, f) != updates[f]
    {
      fields, changed := current, false;
      var rest := updates.Keys;
      while rest != {}
        invariant rest <= updates.Keys
        invariant fields == current + (map f | f in updates.Keys - rest :: updates[f])
        invariant changed <==> exists f | f in updates.Keys - rest :: Read(current, f) != updates[f]
      {
        var f :| f in rest;
        if Read(fields, f) != updates[f] { changed := true; }
        fields := fields[f := updates[f]];
        rest := rest - {f};
      }
      assert (map f | f in updates.Keys - {} :: updates[f]) == updates;
    }

    method Update(lib: Library, id: nat, updates: map<Field, Value>, now: int) returns (reply: Reply)
      modifies this`posts, site
      ensures (View(), reply) == Cms.Update(lib, old(View()), id, updates, now)
    {
      if id >= |posts| { return NotFound; }
      var post := posts[id];
      if !AllTyped(updates) || (ContentDocument in updates && updates[ContentDocument].Missing?) { return DocumentInvalid; }
      var fields, changed := SetFields(post.fields, updates);
      if !changed { return Done; }
      reply := Check(lib, fields, post.status);
      if reply != Done { return; }
      if !Storable(posts, id, fields) { return Conflict; }
      var saved := Save(lib, fields, post.status, post.publishedAt);
      posts := posts[id := saved];
      if post.status == Published { var _ := site.PublicContentChanged(now); }
    }

    method Publish(lib: Library, id: nat, now: int) returns (reply: Reply)
      modifies this`posts, site
      ensures (View(), reply) == Cms.Publish(lib, old(View()), id, now)
    {
      if id >= |posts| { return NotFound; }
      var post := posts[id];
      if post.status == Published { return Done; }
      var title, slug := Read(post.fields, Title), Read(post.fields, Slug);
      if !title.Text? || !HasInk(lib, title.text) || !slug.Text? || !IsSlug(slug.text) { return PublishInvalid; }
      reply := Check(lib, post.fields, Published);
      if reply != Done { return; }
      var saved := Save(lib, post.fields, Published, Some(now));
      posts := posts[id := saved];
      var _ := site.PublicContentChanged(now);
    }

    method Archive(id: nat, now: int) returns (reply: Reply)
      modifies this`posts, site
      ensures (View(), reply) == Cms.Archive(old(View()), id, now)
    {
      if id >= |posts| { return NotFound; }
      var post := posts[id];
      if post.status == Archived { return Done; }
      var wasPublished := post.status == Published;
      post := post.(status := Archived);
      posts := posts[id := post];
      if wasPublished { var _ := site.PublicContentChanged(now); }
      return Done;
    }
  }
}
