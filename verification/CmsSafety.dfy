/**
  What every run of the blog keeps: derived data agree with their source, the revision
  identifies the published site, and what is deployed at the current revision is that site.
 */
module CmsSafety {
  import opened Common
  import opened RichText
  import opened Rendering
  import Html
  import SiteBuilds
  import opened Cms

  // ---------- derived data ----------

  /** HTML and references follow the document; a published post has content and public media. */
  ghost predicate PostOk(lib: Library, media: map<Uuid, Asset>, p: Post) {
    && IsAcceptable(lib, DocumentOf(p.fields), p.status == Published)
    && RenderDocument(lib, DocumentOf(p.fields)) == Some(p.html)
    && p.references == Ids(ImagesAll(lib, Children(DocumentOf(p.fields))))
    && MediaFine(media, AllMedia(lib, p.fields), p.status == Published)
    && (p.status == Published ==> p.publishedAt.Some?)
  }

  ghost predicate Inv(lib: Library, s: State) {
    forall i | 0 <= i < |s.posts| :: PostOk(lib, s.media, s.posts[i])
  }

  lemma SavedOk(lib: Library, s: State, fields: map<Field, Value>, status: PostStatus, publishedAt: Option<int>)
    requires CheckSave(lib, s, fields, status) == Done && (status == Published ==> publishedAt.Some?)
    ensures PostOk(lib, s.media, Saved(lib, fields, status, publishedAt))
  {
  }

  lemma ReplaceKeeps(lib: Library, s: State, id: nat, p: Post)
    requires Inv(lib, s) && id < |s.posts| && PostOk(lib, s.media, p)
    ensures Inv(lib, s.(posts := s.posts[id := p]))
  {
    var posts := s.posts[id := p];
    forall i | 0 <= i < |posts| ensures PostOk(lib, s.media, posts[i]) {
      if i != id { assert posts[i] == s.posts[i]; }
    }
  }

  lemma CreateKeeps(lib: Library, s: State, fields: map<Field, Value>)
    requires Inv(lib, s)
    ensures Inv(lib, Create(lib, s, fields).0)
  {
    var s' := Create(lib, s, fields).0;
    if CheckSave(lib, s, fields, Draft) == Done { SavedOk(lib, s, fields, Draft, None); }
    forall i | 0 <= i < |s'.posts| ensures PostOk(lib, s'.media, s'.posts[i]) {
      if i < |s.posts| { assert s'.posts[i] == s.posts[i]; }
    }
  }

  /** The row at `id` is saved with these fields, and a save of a published row is a content change. */
  ghost predicate Resaved(lib: Library, s: State, s': State, id: nat, fields: map<Field, Value>) {
    && id < |s.posts| && s'.media == s.media && CheckSave(lib, s, fields, s.posts[id].status) == Done
    && s'.posts == s.posts[id := Saved(lib, fields, s.posts[id].status, s.posts[id].publishedAt)]
    && s'.site.content == s.site.content + (if s.posts[id].status == Published then 1 else 0)
    && (s.posts[id].status != Published ==> s'.site == s.site)
  }

  lemma BumpMoves(s: State, now: int)
    ensures Bump(s, now).posts == s.posts && Bump(s, now).media == s.media
    ensures Bump(s, now).site.content == s.site.content + 1
  {
  }

  lemma SavedIsResaved(lib: Library, s: State, id: nat, fields: map<Field, Value>, now: int)
    requires id < |s.posts| && CheckSave(lib, s, fields, s.posts[id].status) == Done
    ensures Resaved(lib, s, Resave(lib, s, id, fields, now), id, fields)
  {
    var p := s.posts[id];
    BumpMoves(s.(posts := s.posts[id := Saved(lib, fields, p.status, p.publishedAt)]), now);
  }

  lemma UpdateEffect(lib: Library, s: State, id: nat, updates: map<Field, Value>, now: int)
    ensures var s' := Update(lib, s, id, updates, now).0;
            s' == s || (id < |s.posts| && Resaved(lib, s, s', id, s.posts[id].fields + updates))
  {
    if id < |s.posts| && CheckSave(lib, s, s.posts[id].fields + updates, s.posts[id].status) == Done {
      SavedIsResaved(lib, s, id, s.posts[id].fields + updates, now);
    }
  }

  lemma ResavedKeeps(lib: Library, s: State, s': State, id: nat, fields: map<Field, Value>)
    requires Inv(lib, s) && Resaved(lib, s, s', id, fields)
    ensures Inv(lib, s')
  {
    var p := s.posts[id];
    assert p.status == Published ==> p.publishedAt.Some? by { assert PostOk(lib, s.media, p); }
    SavedOk(lib, s, fields, p.status, p.publishedAt);
    ReplaceKeeps(lib, s, id, s'.posts[id]);
    forall i | 0 <= i < |s'.posts| ensures PostOk(lib, s'.media, s'.posts[i]) {
      assert PostOk(lib, s.media, s.posts[id := s'.posts[id]][i]);
    }
  }

  lemma UpdateKeeps(lib: Library, s: State, id: nat, updates: map<Field, Value>, now: int)
    requires Inv(lib, s)
    ensures Inv(lib, Update(lib, s, id, updates, now).0)
  {
    var s' := Update(lib, s, id, updates, now).0;
    UpdateEffect(lib, s, id, updates, now);
    if s' != s { ResavedKeeps(lib, s, s', id, s.posts[id].fields + updates); }
  }

  lemma PublishKeeps(lib: Library, s: State, id: nat, now: int)
    requires Inv(lib, s)
    ensures Inv(lib, Publish(lib, s, id, now).0)
  {
    if id < |s.posts| && CheckSave(lib, s, s.posts[id].fields, Published) == Done {
      SavedOk(lib, s, s.posts[id].fields, Published, Some(now));
      ReplaceKeeps(lib, s, id, Saved(lib, s.posts[id].fields, Published, Some(now)));
    }
  }

  lemma ArchivedOk(lib: Library, media: map<Uuid, Asset>, p: Post)
    requires PostOk(lib, media, p)
    ensures PostOk(lib, media, p.(status := Archived))
  {
  }

  lemma ArchiveKeeps(lib: Library, s: State, id: nat, now: int)
    requires Inv(lib, s)
    ensures Inv(lib, Archive(s, id, now).0) && Inv(lib, Delete(s, id))
  {
    if id < |s.posts| {
      ArchivedOk(lib, s.media, s.posts[id]);
      ReplaceKeeps(lib, s, id, s.posts[id].(status := Archived));
    }
  }

  // Assets are never lost, never leave READY and never change visibility.
  predicate MediaGrows(m: map<Uuid, Asset>, m': map<Uuid, Asset>) {
    forall id | id in m :: id in m' && m'[id].public == m[id].public && (m[id].ready ==> m'[id].ready)
  }

  lemma MediaKept(lib: Library, s: State, media: map<Uuid, Asset>)
    requires Inv(lib, s) && MediaGrows(s.media, media)
    ensures Inv(lib, s.(media := media))
  {
    forall i | 0 <= i < |s.posts| ensures PostOk(lib, media, s.posts[i]) { PostKept(lib, s.media, media, s.posts[i]); }
  }

  lemma PostKept(lib: Library, m: map<Uuid, Asset>, m': map<Uuid, Asset>, p: Post)
    requires PostOk(lib, m, p) && MediaGrows(m, m')
    ensures PostOk(lib, m', p)
  {
  }

  lemma UploadGrows(s: State, id: Uuid, public: bool)
    ensures MediaGrows(s.media, Upload(s, id, public).media) && MediaGrows(s.media, CompleteUpload(s, id).media)
  {
  }

  lemma OthersKeep(lib: Library, s: State, e: Event)
    requires Inv(lib, s) && (e.UploadMedia? || e.CompleteMedia? || e.Build?)
    ensures Inv(lib, Step(lib, s, e))
  {
    var s' := Step(lib, s, e);
    if e.UploadMedia? { UploadGrows(s, e.media, e.public); }
    if e.CompleteMedia? { UploadGrows(s, e.media, false); }
    MediaKept(lib, s, s'.media);
    assert s'.posts == s.posts;
  }

  lemma InvStep(lib: Library, s: State, e: Event)
    requires Inv(lib, s)
    ensures Inv(lib, Step(lib, s, e))
  {
    match e
    case CreatePost(fields) => CreateKeeps(lib, s, fields);
    case UpdatePost(id, updates, now) => UpdateKeeps(lib, s, id, updates, now);
    case PublishPost(id, now) => PublishKeeps(lib, s, id, now);
    case ArchivePost(id, now) => ArchiveKeeps(lib, s, id, now);
    case DeletePost(id) => ArchiveKeeps(lib, s, id, 0);
    case _ => OthersKeep(lib, s, e);
  }

  lemma {:induction false} DerivedDataAgree(lib: Library, es: seq<Event>)
    ensures Inv(lib, Run(lib, es))
  {
    if es != [] {
      DerivedDataAgree(lib, es[..|es| - 1]);
      InvStep(lib, Run(lib, es[..|es| - 1]), es[|es| - 1]);
    }
  }

  /** In every reachable state a reader of a post's HTML finds its text, and the referenced media and no others. */
  lemma StoredHtmlReads(lib: Library, es: seq<Event>, id: nat)
    requires id < |Run(lib, es).posts|
    ensures var p := Run(lib, es).posts[id];
            var content := Children(DocumentOf(p.fields));
            && Html.Reads(p.html, PlainTextAll(content), ShowsAll(lib, content))
            && p.references == set i | i in Html.ImagesOf(Html.Scan(p.html).value)
  {
    DerivedDataAgree(lib, es);
    var document := DocumentOf(Run(lib, es).posts[id].fields);
    DocumentReads(lib, document);
    AllPicturesAreImages(lib, Children(document));
  }

  // ---------- the revision identifies the site ----------

  predicate DeletesPublished(s: State, e: Event) {
    e.DeletePost? && e.id < |s.posts| && s.posts[e.id].status == Published
  }

  lemma ContentMoves(s: SiteBuilds.Site, e: BuildEvent, now: int)
    ensures SiteBuilds.Step(s, e).content == s.content
    ensures SiteBuilds.ContentChanged(s, now).content == s.content + 1
  {
  }

  // The row at `id` is all that changes, and the public does not see it before or after.
  lemma HiddenChange(posts: seq<Post>, id: nat, p: Post)
    requires id < |posts| && posts[id].status != Published && p.status != Published
    ensures PublishedPosts(posts[id := p]) == PublishedPosts(posts)
  {
  }

  predicate Identified(s: State, s': State) {
    && s.site.content <= s'.site.content
    && (s'.site.content == s.site.content ==> PublishedPosts(s'.posts) == PublishedPosts(s.posts))
  }

  lemma UpdateIdentifies(lib: Library, s: State, id: nat, updates: map<Field, Value>, now: int)
    ensures Identified(s, Update(lib, s, id, updates, now).0)
  {
    var s' := Update(lib, s, id, updates, now).0;
    UpdateEffect(lib, s, id, updates, now);
    if s' != s { ResavedIdentifies(lib, s, s', id, s.posts[id].fields + updates); }
  }

  lemma ResavedIdentifies(lib: Library, s: State, s': State, id: nat, fields: map<Field, Value>)
    requires Resaved(lib, s, s', id, fields)
    ensures Identified(s, s')
  {
    if s.posts[id].status != Published { HiddenChangeOrNone(s, s', id); }
  }

  lemma HiddenChangeOrNone(s: State, s': State, id: nat)
    requires id < |s.posts| && s.posts[id].status != Published && s'.site == s.site
    requires |s'.posts| == |s.posts| && s'.posts == s.posts[id := s'.posts[id]] && s'.posts[id].status != Published
    ensures Identified(s, s')
  {
    HiddenChange(s.posts, id, s'.posts[id]);
  }

  lemma ArchiveIdentifies(s: State, id: nat, now: int)
    ensures Identified(s, Archive(s, id, now).0)
    ensures Identified(s, Delete(s, id)) || (id < |s.posts| && s.posts[id].status == Published)
  {
    if id < |s.posts| && s.posts[id].status != Published {
      HiddenChangeOrNone(s, Archive(s, id, now).0, id);
      HiddenChangeOrNone(s, Delete(s, id), id);
    }
  }

  lemma CreateIdentifies(lib: Library, s: State, fields: map<Field, Value>)
    ensures Identified(s, Create(lib, s, fields).0)
  {
  }

  lemma DeleteHides(lib: Library, s: State, id: nat)
    requires Inv(lib, s) && id < |s.posts| && s.posts[id].status == Published
    ensures Delete(s, id).site == s.site && PublishedPosts(Delete(s, id).posts) != PublishedPosts(s.posts)
  {
    assert PostOk(lib, s.media, s.posts[id]);
    assert id in PublishedPosts(s.posts) && id !in PublishedPosts(Delete(s, id).posts);
  }

  lemma PublishIdentifies(lib: Library, s: State, id: nat, now: int)
    ensures Identified(s, Publish(lib, s, id, now).0)
  {
  }

  lemma OthersIdentify(lib: Library, s: State, e: Event)
    requires e.UploadMedia? || e.CompleteMedia? || e.Build?
    ensures Identified(s, Step(lib, s, e))
  {
    if e.Build? { ContentMoves(s.site, e.event, 0); }
    assert Step(lib, s, e).posts == s.posts;
  }

  /** A step either raises the revision or leaves the published posts alone, unless it is a DELETE of a published post. */
  lemma StepIdentifies(lib: Library, s: State, e: Event)
    requires Inv(lib, s)
    ensures Identified(s, Step(lib, s, e)) <==> !DeletesPublished(s, e)
  {
    match e
    case CreatePost(fields) => CreateIdentifies(lib, s, fields);
    case UpdatePost(id, updates, now) => UpdateIdentifies(lib, s, id, updates, now);
    case PublishPost(id, now) => PublishIdentifies(lib, s, id, now);
    case ArchivePost(id, now) => ArchiveIdentifies(s, id, now);
    case DeletePost(id) =>
      ArchiveIdentifies(s, id, 0);
      if DeletesPublished(s, e) { DeleteHides(lib, s, id); }
    case _ => OthersIdentify(lib, s, e);
  }

  /** No DELETE of the run hits a published post. */
  predicate Clean(lib: Library, es: seq<Event>) {
    es == [] || (Clean(lib, es[..|es| - 1]) && !DeletesPublished(Run(lib, es[..|es| - 1]), es[|es| - 1]))
  }

  lemma {:induction false} CleanPrefix(lib: Library, es: seq<Event>, k: nat)
    requires k <= |es| && Clean(lib, es)
    ensures Clean(lib, es[..k])
  {
    if k < |es| {
      CleanPrefix(lib, es[..|es| - 1], k);
      assert es[..|es| - 1][..k] == es[..k];
    } else {
      assert es[..k] == es;
    }
  }

  lemma NextMoment(lib: Library, es: seq<Event>, k: nat)
    requires k < |es| && Clean(lib, es)
    ensures Identified(Run(lib, es[..k]), Run(lib, es[..k + 1]))
  {
    assert es[..k + 1][..k] == es[..k];
    CleanPrefix(lib, es, k + 1);
    DerivedDataAgree(lib, es[..k]);
    StepIdentifies(lib, Run(lib, es[..k]), es[k]);
  }

  /** The committed states of a run, first to last. */
  function History(lib: Library, es: seq<Event>): (h: seq<State>)
    ensures |h| == |es| + 1
  {
    seq(|es| + 1, k requires 0 <= k <= |es| => Run(lib, es[..k]))
  }

  // Each state of a history identifies the site with the one before.
  ghost predicate Chain(h: seq<State>) {
    h != [] && forall k | 0 <= k < |h| - 1 :: Identified(h[k], h[k + 1])
  }

  lemma HistoryChains(lib: Library, es: seq<Event>)
    requires Clean(lib, es)
    ensures Chain(History(lib, es))
  {
    forall k | 0 <= k < |es| ensures Identified(History(lib, es)[k], History(lib, es)[k + 1]) { NextMoment(lib, es, k); }
  }

  lemma {:induction false} ChainIdentifies(h: seq<State>, i: nat, j: nat)
    requires Chain(h) && i <= j < |h|
    ensures Identified(h[i], h[j])
    decreases j - i
  {
    if i < j { ChainIdentifies(h, i, j - 1); }
  }

  /** Two moments of a run with the same revision show the same posts. */
  lemma RevisionIdentifiesSite(lib: Library, es: seq<Event>, i: nat, j: nat)
    requires Clean(lib, es) && i <= |es| && j <= |es|
    requires History(lib, es)[i].site.content == History(lib, es)[j].site.content
    ensures PublishedPosts(History(lib, es)[i].posts) == PublishedPosts(History(lib, es)[j].posts)
  {
    HistoryChains(lib, es);
    if i <= j { ChainIdentifies(History(lib, es), i, j); } else { ChainIdentifies(History(lib, es), j, i); }
  }

  // ---------- snapshots: app/blog/public_router.py ----------

  // The three committed reads of one pass, as moments of the history.
  datatype Pass = Pass(before: nat, posts: nat, after: nat)

  predicate InOrder(p: Pass, h: seq<State>) {
    p.before <= p.posts <= p.after < |h|
  }

  predicate Moved(h: seq<State>, p: Pass)
    requires InOrder(p, h)
  {
    h[p.before].site.content != h[p.after].site.content
  }

  datatype Snapshot = Snapshot(revision: nat, posts: map<nat, Post>)

  /** The snapshot is the published set of exactly its revision, at every moment with that revision. */
  ghost predicate Faithful(h: seq<State>, snapshot: Snapshot) {
    && (exists k :: 0 <= k < |h| && h[k].site.content == snapshot.revision)
    && (forall k | 0 <= k < |h| && h[k].site.content == snapshot.revision :: PublishedPosts(h[k].posts) == snapshot.posts)
  }

  lemma PassIsFaithful(h: seq<State>, p: Pass)
    requires Chain(h) && InOrder(p, h) && !Moved(h, p)
    ensures Faithful(h, Snapshot(h[p.after].site.content, PublishedPosts(h[p.posts].posts)))
  {
    ChainIdentifies(h, p.before, p.posts);
    ChainIdentifies(h, p.posts, p.after);
    forall k | 0 <= k < |h| && h[k].site.content == h[p.after].site.content
      ensures PublishedPosts(h[k].posts) == PublishedPosts(h[p.posts].posts)
    {
      if k <= p.posts { ChainIdentifies(h, k, p.posts); } else { ChainIdentifies(h, p.posts, k); }
    }
  }

  method ReadPass(h: seq<State>, p: Pass) returns (result: Option<Snapshot>)
    requires Chain(h) && InOrder(p, h)
    ensures result.Some? ==> Faithful(h, result.value)
    ensures result.None? <==> Moved(h, p)
  {
    var before := h[p.before].site.content;
    var posts := PublishedPosts(h[p.posts].posts);
    var after := h[p.after].site.content;
    if before != after { return None; }
    PassIsFaithful(h, p);
    return Some(Snapshot(after, posts));
  }

  /** Three passes at most over the history of a run (see HistoryChains), whatever commits between the reads. */
  method TakeSnapshot(h: seq<State>, passes: seq<Pass>) returns (result: Option<Snapshot>)
    requires Chain(h) && |passes| == 3 && forall k | 0 <= k < 3 :: InOrder(passes[k], h)
    ensures result.Some? ==> Faithful(h, result.value)
    ensures result.None? <==> forall k | 0 <= k < 3 :: Moved(h, passes[k])
  {
    for n := 0 to 3
      invariant forall k | 0 <= k < n :: Moved(h, passes[k])
    {
      result := ReadPass(h, passes[n]);
      if result.Some? { return; }
    }
    return None;
  }

  // ---------- what is deployed ----------

  predicate Reports(e: Event) {
    e.Build? && e.event.Success? && e.event.actual.Some?
  }

  /**
    Every success that the run reports comes from a build of a snapshot: of a pass that ended
    before the report, did not see the revision move, and read the revision that is reported.
   */
  ghost predicate BuiltFromPasses(es: seq<Event>, h: seq<State>, built: seq<Pass>)
    requires |h| == |es| + 1
  {
    && |built| == |es|
    && forall n | 0 <= n < |es| && Reports(es[n]) ::
         && InOrder(built[n], h) && built[n].after <= n && !Moved(h, built[n])
         && es[n].event.actual == Some(h[built[n].after].site.content)
  }

  lemma DeployedComesFrom(s: SiteBuilds.Site, e: SiteBuilds.Event)
    ensures SiteBuilds.Step(s, e).deployed != s.deployed ==>
              e.Success? && e.actual.Some? && SiteBuilds.Step(s, e).deployed in {s.deployed, e.actual}
  {
  }

  // Nothing but an accepted report changes the deployed revision, and then to the reported one.
  predicate DeploysReported(s: State, e: Event, s': State) {
    s'.site.deployed != s.site.deployed ==> Reports(e) && s'.site.deployed == e.event.actual
  }

  lemma StepDeploys(lib: Library, s: State, e: Event)
    ensures DeploysReported(s, e, Step(lib, s, e))
  {
    if e.Build? { DeployedComesFrom(s.site, e.event); }
  }

  lemma HistoryDeploys(lib: Library, es: seq<Event>, k: nat)
    requires k < |es|
    ensures DeploysReported(History(lib, es)[k], es[k], History(lib, es)[k + 1])
  {
    assert es[..k + 1][..k] == es[..k];
    StepDeploys(lib, Run(lib, es[..k]), es[k]);
  }

  lemma {:induction false} DeployedWasReported(es: seq<Event>, h: seq<State>, n: nat)
    requires |h| == |es| + 1 && n <= |es| && h[0].site.deployed.None?
    requires forall k | 0 <= k < |es| :: DeploysReported(h[k], es[k], h[k + 1])
    ensures h[n].site.deployed.Some? ==> exists k :: 0 <= k < n && Reports(es[k]) && es[k].event.actual == h[n].site.deployed
    decreases n
  {
    if n > 0 {
      DeployedWasReported(es, h, n - 1);
      assert DeploysReported(h[n - 1], es[n - 1], h[n]);
    }
  }

  lemma BuiltIsFaithful(es: seq<Event>, h: seq<State>, built: seq<Pass>, n: nat)
    requires |h| == |es| + 1 && Chain(h) && BuiltFromPasses(es, h, built) && n < |es| && Reports(es[n])
    ensures Faithful(h, Snapshot(es[n].event.actual.value, PublishedPosts(h[built[n].posts].posts)))
    ensures es[n].event.actual.value <= h[|es|].site.content
  {
    PassIsFaithful(h, built[n]);
    ChainIdentifies(h, built[n].after, |es|);
  }

  /**
    When reports come from builds of snapshots, the deployed revision was reported and never
    overtakes the content; and when it is the current one, every build that reported it was
    made from exactly the posts that are published now.
   */
  lemma DeployedShowsCurrent(lib: Library, es: seq<Event>, built: seq<Pass>)
    requires Clean(lib, es) && BuiltFromPasses(es, History(lib, es), built) && Run(lib, es).site.deployed.Some?
    ensures var s := Run(lib, es);
            && s.site.deployed.value <= s.site.content
            && (exists n :: 0 <= n < |es| && Reports(es[n]) && es[n].event.actual == s.site.deployed)
            && (s.site.deployed.value == s.site.content ==>
                  forall n | 0 <= n < |es| && Reports(es[n]) && es[n].event.actual == s.site.deployed ::
                    PublishedPosts(History(lib, es)[built[n].posts].posts) == PublishedPosts(s.posts))
  {
    var h := History(lib, es);
    assert es[..|es|] == es && h[|es|] == Run(lib, es) && h[0] == Run(lib, es[..0]) == EMPTY;
    forall k | 0 <= k < |es| ensures DeploysReported(h[k], es[k], h[k + 1]) { HistoryDeploys(lib, es, k); }
    DeployedWasReported(es, h, |es|);
    HistoryChains(lib, es);
    forall n | 0 <= n < |es| && Reports(es[n])
      ensures Faithful(h, Snapshot(es[n].event.actual.value, PublishedPosts(h[built[n].posts].posts)))
      ensures es[n].event.actual.value <= h[|es|].site.content
    {
      BuiltIsFaithful(es, h, built, n);
    }
  }
}
