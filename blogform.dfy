/** The create/edit form (frontend/src/BlogForm.js): it shows a stored
    post's tags as one `", "`-joined text, and on submit sends the fields
    with that text split on commas and trimmed, to PUT when it was opened on
    a post id and to POST otherwise. The form sends the tags as a JSON
    array, which the server's `tagsCsv.split` cannot take; the corrected
    submit sends the text itself. */
module BlogFormPage {
  import opened Outcomes
  import opened Strings
  import opened Tags
  import opened Posts
  import opened Server

  datatype BlogFields = BlogFields(title: string, content: string, category: string, tags: string)

  const EMPTY_BLOG := BlogFields("", "", "", "")

  /** The request body: the fields, with the tags as the server receives them. */
  datatype Body = Body(title: string, content: string, category: string, tags: TagsField)

  /** PUT /api/blogs/:id or POST /api/blogs. */
  datatype Request = Put(id: ObjectId, body: Body) | Create(body: Body)

  /** The form filled from a fetched post: `tags.join(', ')`. */
  function Loaded(title: string, content: string, category: string, tags: seq<string>): (b: BlogFields)
    ensures b.title == title && b.content == content && b.category == category
    ensures tags == [] ==> b.tags == ""
  {
    BlogFields(title, content, category, Join(tags, ", "))
  }

  /** Splitting and trimming the shown text gives back the stored tags when
      they are trimmed and hold no comma. */
  lemma LoadedTagsRoundTrip(title: string, content: string, category: string, tags: seq<string>)
    requires |tags| >= 1 && forall k :: 0 <= k < |tags| ==> IsTrimmed(tags[k]) && ',' !in tags[k]
    ensures SplitTrim(Loaded(title, content, category, tags).tags) == tags
  {
    SplitTrimJoin(tags);
  }

  /** An empty tags box is sent as one empty tag. */
  lemma EmptyBoxSendsOneEmptyTag()
    ensures SplitTrim("") == [""]
  {
    assert Split("", ',') == [""];
    assert Trim("") == "";
  }

  /** The body as written: `tags: blog.tags.split(',').map(tag => tag.trim())`. */
  function SentBody(b: BlogFields): (body: Body)
    ensures body.title == b.title && body.content == b.content && body.category == b.category
    ensures body.tags == List(SplitTrim(b.tags))
    ensures CheckTags(body.tags) == Fail(INTERNAL_ERROR)
  {
    Body(b.title, b.content, b.category, List(SplitTrim(b.tags)))
  }

  /** The corrected body: the tags text, which the server splits and trims
      the same way. */
  function SentBodyCorrected(b: BlogFields): (body: Body)
    ensures body.title == b.title && body.content == b.content && body.category == b.category
    ensures body.tags == Text(b.tags)
    ensures CheckTags(body.tags).Fail? ==> CheckTags(body.tags).status == BAD_REQUEST
  {
    Body(b.title, b.content, b.category, Text(b.tags))
  }

  /** Re-sending a loaded form unchanged gives the server back the very
      tags it showed, once the text is sent as text. */
  lemma CorrectedTagsRoundTrip(title: string, content: string, category: string, tags: seq<string>)
    requires AllValid(tags)
    requires forall k :: 0 <= k < |tags| ==> IsTrimmed(tags[k]) && ',' !in tags[k]
    ensures CheckTags(SentBodyCorrected(Loaded(title, content, category, tags)).tags) == Ok(tags)
  {
    if |tags| >= 1 {
      CheckTagsOfJoined(tags);
    }
  }

  class BlogForm {
    /** The `:id` of the route the form was opened on. */
    const routeId: Option<ObjectId>
    var blog: BlogFields
    var loading: bool
    var isEditing: bool
    var error: string

    ghost predicate Valid()
      reads this
    {
      isEditing <==> routeId.Some?
    }

    /** Opening the form: edit mode exactly when there is a route id. */
    constructor (id: Option<ObjectId>)
      ensures Valid()
      ensures routeId == id && blog == EMPTY_BLOG && !loading && error == ""
    {
      routeId := id;
      blog := EMPTY_BLOG;
      loading := false;
      isEditing := id.Some?;
      error := "";
    }

    /** The fetch in edit mode fills the form from the stored post. */
    method Load(title: string, content: string, category: string, tags: seq<string>)
      requires Valid()
      modifies this
      ensures Valid()
      ensures blog == Loaded(title, content, category, tags)
      ensures loading == old(loading) && isEditing == old(isEditing) && error == old(error)
    {
      blog := BlogFields(title, content, category, Join(tags, ", "));
    }

    /** `handleSubmit` as written. Without a token nothing is sent and the
        form stops loading; otherwise the body goes to PUT in edit mode and
        to POST otherwise; success empties every field. Loading ends either
        way. */
    method HandleSubmit(token: Option<string>, requestOk: bool) returns (request: Option<Request>)
      requires Valid()
      modifies this
      ensures Valid()
      ensures token.None? ==> request.None? && blog == old(blog)
      ensures token.Some? && routeId.Some? ==> request == Some(Put(routeId.value, SentBody(old(blog))))
      ensures token.Some? && routeId.None? ==> request == Some(Create(SentBody(old(blog))))
      ensures token.Some? && requestOk ==> blog == EMPTY_BLOG
      ensures !(token.Some? && requestOk) ==> blog == old(blog)
      ensures !loading && error == "" && isEditing == old(isEditing)
    {
      loading := true;
      error := "";
      if token.None? {
        loading := false;
        return None;
      }
      if isEditing {
        request := Some(Put(routeId.value, SentBody(blog)));
      } else {
        request := Some(Create(SentBody(blog)));
      }
      if requestOk {
        blog := EMPTY_BLOG;
      }
      loading := false;
    }

    /** `handleSubmit` with the tags sent as text. */
    method HandleSubmitCorrected(token: Option<string>, requestOk: bool) returns (request: Option<Request>)
      requires Valid()
      modifies this
      ensures Valid()
      ensures token.None? ==> request.None? && blog == old(blog)
      ensures token.Some? && routeId.Some? ==> request == Some(Put(routeId.value, SentBodyCorrected(old(blog))))
      ensures token.Some? && routeId.None? ==> request == Some(Create(SentBodyCorrected(old(blog))))
      ensures token.Some? && requestOk ==> blog == EMPTY_BLOG
      ensures !(token.Some? && requestOk) ==> blog == old(blog)
      ensures !loading && error == "" && isEditing == old(isEditing)
    {
      loading := true;
      error := "";
      if token.None? {
        loading := false;
        return None;
      }
      if isEditing {
        request := Some(Put(routeId.value, SentBodyCorrected(blog)));
      } else {
        request := Some(Create(SentBodyCorrected(blog)));
      }
      if requestOk {
        blog := EMPTY_BLOG;
      }
      loading := false;
    }
  }

  /** Publishing from the form as written: whatever was typed, the server
      answers 500 and stores nothing. */
  method PublishAsWritten(s: BlogServer, form: BlogForm, userId: ObjectId) returns (status: int)
    requires s.Valid() && form.Valid() && form.routeId.None?
    modifies s, form
    ensures status == INTERNAL_ERROR
    ensures s.posts == old(s.posts)
  {
    var request := form.HandleSubmit(Some("token"), false);
    var body := request.value.body;
    var id;
    status, id := s.CreateBlog(Token(userId), body.title, body.content, body.category, body.tags);
  }

  /** Opening the edit form on a post and submitting it unchanged with the
      corrected submit sends the post's own fields back. */
  method ResubmitCorrected(postId: ObjectId, p: Posts.Post) returns (body: Body)
    ensures body == SentBodyCorrected(Loaded(p.title, p.content, p.category, p.tags))
  {
    var form := new BlogForm(Some(postId));
    form.Load(p.title, p.content, p.category, p.tags);
    var request := form.HandleSubmitCorrected(Some("token"), true);
    assert request == Some(Put(postId, SentBodyCorrected(Loaded(p.title, p.content, p.category, p.tags))));
    body := request.value.body;
  }

  /** Saving an edit form loaded from a post of the caller's, unchanged,
      with the corrected submit: the server answers 200 and the post stays
      as it was. */
  method SaveUnchangedCorrected(s: BlogServer, postId: ObjectId, userId: ObjectId) returns (status: int)
    requires s.Valid() && postId in s.posts && s.posts[postId].author == userId
    requires AllValid(s.posts[postId].tags)
    requires forall k :: 0 <= k < |s.posts[postId].tags| ==>
      IsTrimmed(s.posts[postId].tags[k]) && ',' !in s.posts[postId].tags[k]
    modifies s
    ensures status == OK
    ensures s.posts == old(s.posts)
  {
    var p := s.posts[postId];
    var body := ResubmitCorrected(postId, p);
    CorrectedTagsRoundTrip(p.title, p.content, p.category, p.tags);
    MergeUnchanged(p);
    var updated;
    status, updated := s.UpdateBlog(Token(userId), postId, body.title, body.content, body.category, body.tags);
  }

  /** Merging a post's own values leaves it as it was. */
  lemma MergeUnchanged(p: Posts.Post)
    ensures Merge(p, p.title, p.content, p.category, p.tags) == p
  {
  }
}
