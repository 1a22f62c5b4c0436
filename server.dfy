/** The route handlers of backend/server.js over one store: the posts
    collection (documents keyed by id, in insertion order), the users
    collection and the supply of fresh document ids. Each handler either
    answers with an error status and leaves the store as it was, or changes
    exactly one document. */
module Server {
  import opened Outcomes
  import opened Seqs
  import opened Tags
  import opened Posts
  import opened Users
  import opened Feed

  /** What the `authenticate` middleware makes of the request: no
      Authorization header, a token that does not verify, or the id in a
      verified token. */
  datatype Credential = NoHeader | BadToken | Token(userId: ObjectId)

  /** The status `authenticate` ends a request with: 401 without a header,
      403 (not 401) for a token that fails verification. */
  function AuthFailure(c: Credential): (s: int)
    requires !c.Token?
    ensures s == UNAUTHORIZED <==> c.NoHeader?
    ensures s == FORBIDDEN <==> c.BadToken?
  {
    if c.NoHeader? then UNAUTHORIZED else FORBIDDEN
  }

  /** A route id that DELETE .../comments/:commentId checks with
      `ObjectId.isValid` before using it. */
  datatype IdParam = Wellformed(id: ObjectId) | Malformed

  predicate CommentIdsBelow(cs: seq<Comment>, n: nat) {
    forall k :: 0 <= k < |cs| ==> cs[k].id < n
  }

  class BlogServer {
    var posts: map<ObjectId, Post>
    /** The ids of the stored posts in insertion order, the order `find` lists them in. */
    var order: seq<ObjectId>
    var users: seq<User>
    /** Every id handed out so far is below this one. */
    var nextId: nat

    ghost predicate Valid()
      reads this
    {
      && NoDup(order)
      && (forall k :: k in posts <==> k in order)
      && (forall k :: k in posts ==> k < nextId && WellFormed(posts[k]) && CommentIdsBelow(posts[k].comments, nextId))
      && (forall k :: k in posts ==> HasRequired(posts[k]))
      && UniqueUsers(users)
      && (forall i :: 0 <= i < |users| ==> users[i].id < nextId)
    }

    constructor ()
      ensures Valid()
      ensures posts == map[] && order == [] && users == []
    {
      posts, order, users, nextId := map[], [], [], 0;
    }

    /** `blog.save()` on a document fetched from the posts collection: the
        stored copy is replaced, and nothing else changes. */
    method Save(id: ObjectId, blog: Post)
      requires Valid() && id in posts
      requires WellFormed(blog) && HasRequired(blog) && CommentIdsBelow(blog.comments, nextId)
      modifies this
      ensures Valid()
      ensures posts == old(posts)[id := blog]
      ensures order == old(order) && users == old(users) && nextId == old(nextId)
    {
      posts := posts[id := blog];
    }

    /** `blog.save()` after a subdocument was pushed with the next fresh id,
        which is then used up. */
    method SaveWithFreshId(id: ObjectId, blog: Post)
      requires Valid() && id in posts
      requires WellFormed(blog) && HasRequired(blog) && CommentIdsBelow(blog.comments, nextId + 1)
      modifies this
      ensures Valid()
      ensures posts == old(posts)[id := blog] && nextId == old(nextId) + 1
      ensures order == old(order) && users == old(users)
    {
      forall k | k in posts ensures CommentIdsBelow(posts[k].comments, nextId + 1) {
        assert CommentIdsBelow(posts[k].comments, nextId);
      }
      posts := posts[id := blog];
      nextId := nextId + 1;
    }

    /** POST /register, with every field present in the body.
        `passwordHash` stands for what bcrypt makes of the password, which
        is never empty even for an empty password. A taken username or email
        answers 409 naming the field; an empty username, email or mobile
        fails the schema's `required` and answers 500. */
    method Register(username: string, email: string, mobile: string, passwordHash: string)
      returns (status: int, field: string)
      requires Valid()
      requires passwordHash != ""
      modifies this
      ensures Valid()
      ensures posts == old(posts) && order == old(order)
      ensures FindUser(old(users), ByUsername(username)).Some? ==> status == CONFLICT && field == "username"
      ensures FindUser(old(users), ByUsername(username)).None? && FindUser(old(users), ByEmail(email)).Some? ==>
        status == CONFLICT && field == "email"
      ensures (FindUser(old(users), ByUsername(username)).None? && FindUser(old(users), ByEmail(email)).None?
        && (username == "" || email == "" || mobile == "")) ==> status == INTERNAL_ERROR
      ensures status == CREATED <==>
        && FindUser(old(users), ByUsername(username)).None? && FindUser(old(users), ByEmail(email)).None?
        && username != "" && email != "" && mobile != ""
      ensures status == CREATED ==> users == old(users) + [User(old(nextId), username, email, mobile, passwordHash)]
      ensures status != CREATED ==> users == old(users) && nextId == old(nextId)
    {
      field := "";
      if FindUser(users, ByUsername(username)).Some? {
        return CONFLICT, "username";
      }
      if FindUser(users, ByEmail(email)).Some? {
        return CONFLICT, "email";
      }
      if username == "" || email == "" || mobile == "" {
        return INTERNAL_ERROR, field;
      }
      users := users + [User(nextId, username, email, mobile, passwordHash)];
      nextId := nextId + 1;
      status := CREATED;
    }

    /** GET /api/blogs/:id. */
    method GetBlog(id: ObjectId) returns (status: int, blog: Post)
      ensures status == OK <==> id in posts
      ensures status == NOT_FOUND <==> id !in posts
      ensures status == OK ==> blog == posts[id]
    {
      if id !in posts {
        return NOT_FOUND, Post("", "", "", [], 0, [], []);
      }
      return OK, posts[id];
    }

    /** POST /api/blogs. `id` is the id the new document receives (the
        response itself carries only a message). */
    method CreateBlog(cred: Credential, title: string, content: string, category: string, tags: TagsField)
      returns (status: int, id: ObjectId)
      requires Valid()
      modifies this
      ensures Valid()
      ensures users == old(users)
      ensures !cred.Token? ==> status == AuthFailure(cred)
      ensures cred.Token? && CheckTags(tags).Fail? ==> status == CheckTags(tags).status
      ensures cred.Token? && CheckTags(tags).Ok? && (title == "" || content == "" || category == "") ==>
        status == INTERNAL_ERROR
      ensures status == CREATED <==> cred.Token? && CheckTags(tags).Ok? && title != "" && content != "" && category != ""
      ensures status == CREATED ==>
        && id !in old(posts)
        && posts == old(posts)[id := NewPost(title, content, category, CheckTags(tags).value, cred.userId)]
        && order == old(order) + [id]
      ensures status != CREATED ==> posts == old(posts) && order == old(order) && nextId == old(nextId)
    {
      id := 0;
      if !cred.Token? {
        return AuthFailure(cred), id;
      }
      var parsed := CheckTags(tags);
      if parsed.Fail? {
        return parsed.status, id;
      }
      if title == "" || content == "" || category == "" {
        // the schema's `required` rejects the save
        return INTERNAL_ERROR, id;
      }
      id := nextId;
      assert id !in order;
      assert NoDup(order + [id]);
      posts := posts[id := NewPost(title, content, category, parsed.value, cred.userId)];
      order := order + [id];
      nextId := nextId + 1;
      status := CREATED;
    }

    /** PUT /api/blogs/:id: tags first (400 before the post is even looked
        up), then 404, then 403 for anyone but the author, then the partial
        merge. */
    method UpdateBlog(cred: Credential, id: ObjectId, title: string, content: string, category: string, tags: TagsField)
      returns (status: int, updated: Post)
      requires Valid()
      modifies this
      ensures Valid()
      ensures users == old(users) && order == old(order) && nextId == old(nextId)
      ensures !cred.Token? ==> status == AuthFailure(cred)
      ensures cred.Token? && CheckTags(tags).Fail? ==> status == CheckTags(tags).status
      ensures cred.Token? && CheckTags(tags).Ok? && id !in old(posts) ==> status == NOT_FOUND
      ensures cred.Token? && CheckTags(tags).Ok? && id in old(posts) && old(posts)[id].author != cred.userId ==>
        status == FORBIDDEN
      ensures status == OK <==>
        cred.Token? && CheckTags(tags).Ok? && id in old(posts) && old(posts)[id].author == cred.userId
      ensures status == OK ==>
        && updated == Merge(old(posts)[id], title, content, category, CheckTags(tags).value)
        && posts == old(posts)[id := updated]
      ensures status != OK ==> posts == old(posts)
    {
      updated := Post("", "", "", [], 0, [], []);
      if !cred.Token? {
        return AuthFailure(cred), updated;
      }
      var parsed := CheckTags(tags);
      if parsed.Fail? {
        return parsed.status, updated;
      }
      if id !in posts {
        return NOT_FOUND, updated;
      }
      var blog := posts[id];
      if blog.author != cred.userId {
        return FORBIDDEN, updated;
      }
      blog := blog.(title := if title != "" then title else blog.title);
      blog := blog.(content := if content != "" then content else blog.content);
      blog := blog.(category := if category != "" then category else blog.category);
      blog := blog.(tags := if |parsed.value| > 0 then parsed.value else blog.tags);
      Save(id, blog);
      return OK, blog;
    }

    /** DELETE /api/blogs/:id: 404, then 403 for anyone but the author; the
        comments and likes go with the document. */
    method DeleteBlog(cred: Credential, id: ObjectId) returns (status: int)
      requires Valid()
      modifies this
      ensures Valid()
      ensures users == old(users) && nextId == old(nextId)
      ensures !cred.Token? ==> status == AuthFailure(cred)
      ensures cred.Token? && id !in old(posts) ==> status == NOT_FOUND
      ensures cred.Token? && id in old(posts) && old(posts)[id].author != cred.userId ==> status == FORBIDDEN
      ensures status == OK <==> cred.Token? && id in old(posts) && old(posts)[id].author == cred.userId
      ensures status == OK ==> posts == old(posts) - {id} && order == RemoveAll(old(order), id)
      ensures status != OK ==> posts == old(posts) && order == old(order)
    {
      if !cred.Token? {
        return AuthFailure(cred);
      }
      if id !in posts {
        return NOT_FOUND;
      }
      if posts[id].author != cred.userId {
        return FORBIDDEN;
      }
      RemoveAllNoDup(order, id);
      posts := posts - {id};
      order := RemoveAll(order, id);
      status := OK;
    }

    /** POST /api/blogs/:id/like: the toggle. The answer carries the new
        number of likes and whether the caller now likes the post. */
    method Like(cred: Credential, id: ObjectId) returns (status: int, likes: nat, likedByUser: bool)
      requires Valid()
      modifies this
      ensures Valid()
      ensures users == old(users) && order == old(order) && nextId == old(nextId)
      ensures !cred.Token? ==> status == AuthFailure(cred)
      ensures status == OK <==> cred.Token? && id in old(posts)
      ensures cred.Token? && id !in old(posts) ==> status == NOT_FOUND
      ensures status == OK ==>
        && posts == old(posts)[id := old(posts)[id].(likes := ToggleLike(old(posts)[id].likes, cred.userId))]
        && likes == |posts[id].likes|
        && likedByUser == (cred.userId !in old(posts)[id].likes)
        && likedByUser == (cred.userId in posts[id].likes)
        && likes == if likedByUser then |old(posts)[id].likes| + 1 else |old(posts)[id].likes| - 1
      ensures status != OK ==> posts == old(posts)
    {
      likes, likedByUser := 0, false;
      if !cred.Token? {
        return AuthFailure(cred), likes, likedByUser;
      }
      if id !in posts {
        return NOT_FOUND, likes, likedByUser;
      }
      var blog := posts[id];
      var userId := cred.userId;
      var alreadyLiked := userId in blog.likes;
      NoDupOccursOnce(blog.likes, userId);
      if alreadyLiked {
        blog := blog.(likes := RemoveAll(blog.likes, userId));
      } else {
        blog := blog.(likes := blog.likes + [userId]);
      }
      assert blog.likes == ToggleLike(posts[id].likes, userId);
      Save(id, blog);
      status, likes, likedByUser := OK, |blog.likes|, !alreadyLiked;
    }

    /** POST /api/blogs/:postId/unlike: 404, then 400 when the caller is not
        among the likes, else the first occurrence is spliced out. */
    method Unlike(cred: Credential, id: ObjectId) returns (status: int)
      requires Valid()
      modifies this
      ensures Valid()
      ensures users == old(users) && order == old(order) && nextId == old(nextId)
      ensures !cred.Token? ==> status == AuthFailure(cred)
      ensures cred.Token? && id !in old(posts) ==> status == NOT_FOUND
      ensures cred.Token? && id in old(posts) && cred.userId !in old(posts)[id].likes ==> status == BAD_REQUEST
      ensures status == OK <==> cred.Token? && id in old(posts) && cred.userId in old(posts)[id].likes
      ensures status == OK ==>
        && posts == old(posts)[id := old(posts)[id].(likes := Posts.Unlike(old(posts)[id].likes, cred.userId))]
        && |posts[id].likes| == |old(posts)[id].likes| - 1
        && cred.userId !in posts[id].likes
      ensures status != OK ==> posts == old(posts)
    {
      if !cred.Token? {
        return AuthFailure(cred);
      }
      if id !in posts {
        return NOT_FOUND;
      }
      var blogPost := posts[id];
      var likedIndex := IndexOf(blogPost.likes, cred.userId);
      if likedIndex == -1 {
        return BAD_REQUEST;
      }
      blogPost := blogPost.(likes := RemoveAt(blogPost.likes, likedIndex));
      assert blogPost.likes == Posts.Unlike(posts[id].likes, cred.userId);
      Save(id, blogPost);
      status := OK;
    }

    /** POST /api/blogs/:postId/comment: 404 for a missing post or user, 500
        when the text is empty (the schema requires it), else one comment
        appended. The new comment carries `username`, a key the comment
        schema does not have, so it is stored without an author; the answer
        echoes `username`. */
    method AddComment(cred: Credential, id: ObjectId, commentText: string) returns (status: int, username: string)
      requires Valid()
      modifies this
      ensures Valid()
      ensures users == old(users) && order == old(order)
      ensures !cred.Token? ==> status == AuthFailure(cred)
      ensures cred.Token? && id !in old(posts) ==> status == NOT_FOUND
      ensures cred.Token? && id in old(posts) && FindUser(users, ById(cred.userId)).None? ==> status == NOT_FOUND
      ensures cred.Token? && id in old(posts) && FindUser(users, ById(cred.userId)).Some? && commentText == "" ==>
        status == INTERNAL_ERROR
      ensures status == CREATED <==>
        cred.Token? && id in old(posts) && FindUser(users, ById(cred.userId)).Some? && commentText != ""
      ensures status == CREATED ==>
        && posts == old(posts)[id := old(posts)[id].(comments := old(posts)[id].comments + [Comment(old(nextId), commentText, None)])]
        && username == FindUser(users, ById(cred.userId)).value.username
      ensures status != CREATED ==> posts == old(posts) && nextId == old(nextId)
    {
      username := "";
      if !cred.Token? {
        return AuthFailure(cred), username;
      }
      if id !in posts {
        return NOT_FOUND, username;
      }
      var blog := posts[id];
      var user := FindUser(users, ById(cred.userId));
      if user.None? {
        return NOT_FOUND, username;
      }
      if commentText == "" {
        return INTERNAL_ERROR, username;
      }
      AppendFresh(blog.comments, Comment(nextId, commentText, None), nextId);
      blog := blog.(comments := blog.comments + [Comment(nextId, commentText, None)]);
      SaveWithFreshId(id, blog);
      return CREATED, user.value.username;
    }

    /** The comment route with the new comment attributed to the caller
        (`author: req.user.userId`), which the edit and delete routes check
        ownership against. */
    method AddCommentAttributed(cred: Credential, id: ObjectId, commentText: string) returns (status: int, username: string)
      requires Valid()
      modifies this
      ensures Valid()
      ensures users == old(users) && order == old(order)
      ensures !cred.Token? ==> status == AuthFailure(cred)
      ensures cred.Token? && id !in old(posts) ==> status == NOT_FOUND
      ensures cred.Token? && id in old(posts) && FindUser(users, ById(cred.userId)).None? ==> status == NOT_FOUND
      ensures cred.Token? && id in old(posts) && FindUser(users, ById(cred.userId)).Some? && commentText == "" ==>
        status == INTERNAL_ERROR
      ensures status == CREATED <==>
        cred.Token? && id in old(posts) && FindUser(users, ById(cred.userId)).Some? && commentText != ""
      ensures status == CREATED ==>
        && posts == old(posts)[id := old(posts)[id].(comments :=
             old(posts)[id].comments + [Comment(old(nextId), commentText, Some(cred.userId))])]
        && username == FindUser(users, ById(cred.userId)).value.username
      ensures status != CREATED ==> posts == old(posts) && nextId == old(nextId)
    {
      username := "";
      if !cred.Token? {
        return AuthFailure(cred), username;
      }
      if id !in posts {
        return NOT_FOUND, username;
      }
      var blog := posts[id];
      var user := FindUser(users, ById(cred.userId));
      if user.None? {
        return NOT_FOUND, username;
      }
      if commentText == "" {
        return INTERNAL_ERROR, username;
      }
      AppendFresh(blog.comments, Comment(nextId, commentText, Some(cred.userId)), nextId);
      blog := blog.(comments := blog.comments + [Comment(nextId, commentText, Some(cred.userId))]);
      SaveWithFreshId(id, blog);
      return CREATED, user.value.username;
    }

    /** PUT /api/blogs/:postId/comments/:commentId: 404 for a missing post
        or comment; a comment without an author makes `comment.author.toString()`
        throw (500); 403 for anyone but the comment's author; 500 for an
        empty text (the schema requires it); else only that text changes. */
    method EditComment(cred: Credential, postId: ObjectId, commentId: ObjectId, newText: string) returns (status: int)
      requires Valid()
      modifies this
      ensures Valid()
      ensures users == old(users) && order == old(order) && nextId == old(nextId)
      ensures !cred.Token? ==> status == AuthFailure(cred)
      ensures cred.Token? && postId !in old(posts) ==> status == NOT_FOUND
      ensures cred.Token? && postId in old(posts) && CommentIndex(old(posts)[postId].comments, commentId) < 0 ==>
        status == NOT_FOUND
      ensures (&& cred.Token? && postId in old(posts)
               && var i := CommentIndex(old(posts)[postId].comments, commentId);
                  i >= 0 && old(posts)[postId].comments[i].author.None?) ==>
        status == INTERNAL_ERROR
      ensures (&& cred.Token? && postId in old(posts)
               && var i := CommentIndex(old(posts)[postId].comments, commentId);
                  i >= 0 && old(posts)[postId].comments[i].author.Some?
                  && old(posts)[postId].comments[i].author != Some(cred.userId)) ==>
        status == FORBIDDEN
      ensures (&& cred.Token? && postId in old(posts)
               && var i := CommentIndex(old(posts)[postId].comments, commentId);
                  i >= 0 && old(posts)[postId].comments[i].author == Some(cred.userId) && newText == "") ==>
        status == INTERNAL_ERROR
      ensures status == OK <==>
        && cred.Token? && postId in old(posts)
        && var i := CommentIndex(old(posts)[postId].comments, commentId);
           i >= 0 && old(posts)[postId].comments[i].author == Some(cred.userId) && newText != ""
      ensures status == FORBIDDEN ==>
        || cred.BadToken?
        || (&& postId in old(posts)
            && var i := CommentIndex(old(posts)[postId].comments, commentId);
               i >= 0 && old(posts)[postId].comments[i].author.Some?
               && old(posts)[postId].comments[i].author != Some(cred.userId))
      ensures status == OK ==>
        var old_cs := old(posts)[postId].comments;
        posts == old(posts)[postId := old(posts)[postId].(comments :=
          SetCommentText(old_cs, CommentIndex(old_cs, commentId), newText))]
      ensures status != OK ==> posts == old(posts)
    {
      if !cred.Token? {
        return AuthFailure(cred);
      }
      if postId !in posts {
        return NOT_FOUND;
      }
      var blog := posts[postId];
      var i := CommentIndex(blog.comments, commentId);
      if i < 0 {
        return NOT_FOUND;
      }
      var comment := blog.comments[i];
      if comment.author.None? {
        return INTERNAL_ERROR;
      }
      if comment.author.value != cred.userId {
        return FORBIDDEN;
      }
      if newText == "" {
        return INTERNAL_ERROR;
      }
      blog := blog.(comments := SetCommentText(blog.comments, i, newText));
      Save(postId, blog);
      status := OK;
    }

    /** DELETE /api/blogs/:postId/comments/:commentId as written: the
        comment is pulled first, so the lookup that follows never finds it
        and every request on an existing post ends in 404, after the comment
        is gone, whoever asked. */
    method DeleteComment(cred: Credential, postId: IdParam, commentId: IdParam) returns (status: int)
      requires Valid()
      modifies this
      ensures Valid()
      ensures users == old(users) && order == old(order) && nextId == old(nextId)
      ensures !cred.Token? ==> status == AuthFailure(cred)
      ensures cred.Token? && (postId.Malformed? || commentId.Malformed?) ==> status == BAD_REQUEST
      ensures status != OK
      ensures status == FORBIDDEN ==> cred.BadToken?
      ensures cred.Token? && postId.Wellformed? && commentId.Wellformed? ==> status == NOT_FOUND
      ensures cred.Token? && postId.Wellformed? && commentId.Wellformed? && postId.id in old(posts) ==>
        posts == old(posts)[postId.id := old(posts)[postId.id].(comments :=
          PullComment(old(posts)[postId.id].comments, commentId.id))]
      ensures !(cred.Token? && postId.Wellformed? && commentId.Wellformed? && postId.id in old(posts)) ==>
        posts == old(posts)
    {
      if !cred.Token? {
        return AuthFailure(cred);
      }
      if postId.Malformed? || commentId.Malformed? {
        return BAD_REQUEST;
      }
      if postId.id !in posts {
        return NOT_FOUND;
      }
      var updatedBlog := posts[postId.id];
      PullKeeps(updatedBlog.comments, commentId.id);
      PullBelow(updatedBlog.comments, commentId.id, nextId);
      updatedBlog := updatedBlog.(comments := PullComment(updatedBlog.comments, commentId.id));
      Save(postId.id, updatedBlog);
      var i := CommentIndex(updatedBlog.comments, commentId.id);
      if i < 0 {
        return NOT_FOUND;
      }
      // the pull above removed every comment with this id
      assert false;
    }

    /** DELETE .../comments/:commentId with the checks of the edit route put
        before the pull: only the comment's author removes it. */
    method DeleteCommentChecked(cred: Credential, postId: IdParam, commentId: IdParam) returns (status: int)
      requires Valid()
      modifies this
      ensures Valid()
      ensures users == old(users) && order == old(order) && nextId == old(nextId)
      ensures !cred.Token? ==> status == AuthFailure(cred)
      ensures cred.Token? && (postId.Malformed? || commentId.Malformed?) ==> status == BAD_REQUEST
      ensures cred.Token? && postId.Wellformed? && commentId.Wellformed? && postId.id !in old(posts) ==>
        status == NOT_FOUND
      ensures (&& cred.Token? && postId.Wellformed? && commentId.Wellformed? && postId.id in old(posts)
               && CommentIndex(old(posts)[postId.id].comments, commentId.id) < 0) ==>
        status == NOT_FOUND
      ensures (&& cred.Token? && postId.Wellformed? && commentId.Wellformed? && postId.id in old(posts)
               && var i := CommentIndex(old(posts)[postId.id].comments, commentId.id);
                  i >= 0 && old(posts)[postId.id].comments[i].author.None?) ==>
        status == INTERNAL_ERROR
      ensures (&& cred.Token? && postId.Wellformed? && commentId.Wellformed? && postId.id in old(posts)
               && var i := CommentIndex(old(posts)[postId.id].comments, commentId.id);
                  i >= 0 && old(posts)[postId.id].comments[i].author.Some?
                  && old(posts)[postId.id].comments[i].author != Some(cred.userId)) ==>
        status == FORBIDDEN
      ensures status == OK <==>
        && cred.Token? && postId.Wellformed? && commentId.Wellformed? && postId.id in old(posts)
        && var i := CommentIndex(old(posts)[postId.id].comments, commentId.id);
           i >= 0 && old(posts)[postId.id].comments[i].author == Some(cred.userId)
      ensures status == OK ==>
        var old_cs := old(posts)[postId.id].comments;
        posts == old(posts)[postId.id := old(posts)[postId.id].(comments :=
          RemoveAt(old_cs, CommentIndex(old_cs, commentId.id)))]
      ensures status != OK ==> posts == old(posts)
    {
      if !cred.Token? {
        return AuthFailure(cred);
      }
      if postId.Malformed? || commentId.Malformed? {
        return BAD_REQUEST;
      }
      if postId.id !in posts {
        return NOT_FOUND;
      }
      var blog := posts[postId.id];
      var i := CommentIndex(blog.comments, commentId.id);
      if i < 0 {
        return NOT_FOUND;
      }
      var comment := blog.comments[i];
      if comment.author.None? {
        return INTERNAL_ERROR;
      }
      if comment.author.value != cred.userId {
        return FORBIDDEN;
      }
      PullPresent(blog.comments, commentId.id);
      PullKeeps(blog.comments, commentId.id);
      PullBelow(blog.comments, commentId.id, nextId);
      blog := blog.(comments := PullComment(blog.comments, commentId.id));
      Save(postId.id, blog);
      status := OK;
    }

    /** GET /api/user/blogs: the caller's own posts. */
    method UserBlogs(cred: Credential) returns (status: int, blogs: seq<Post>)
      requires Valid()
      ensures !cred.Token? ==> status == AuthFailure(cred)
      ensures cred.Token? ==> status == OK
      ensures status == OK ==>
        forall p :: p in blogs <==> p.author == cred.userId && exists k :: k in posts && posts[k] == p
    {
      if !cred.Token? {
        return AuthFailure(cred), [];
      }
      var query := Everything.(author := Some(cred.userId));
      blogs := Select(order, posts, query);
      forall p ensures p in blogs <==> p.author == cred.userId && exists k :: k in posts && posts[k] == p {
        SelectMembers(order, posts, query, p);
      }
      status := OK;
    }

    /** GET /api/user/liked-posts: the posts whose likes hold the caller. */
    method LikedPosts(cred: Credential) returns (status: int, likedPosts: seq<Post>)
      requires Valid()
      ensures !cred.Token? ==> status == AuthFailure(cred)
      ensures cred.Token? ==> status == OK
      ensures status == OK ==>
        forall p :: p in likedPosts <==> cred.userId in p.likes && exists k :: k in posts && posts[k] == p
    {
      if !cred.Token? {
        return AuthFailure(cred), [];
      }
      var query := Everything.(likedBy := Some(cred.userId));
      likedPosts := Select(order, posts, query);
      forall p ensures p in likedPosts <==> cred.userId in p.likes && exists k :: k in posts && posts[k] == p {
        SelectMembers(order, posts, query, p);
      }
      status := OK;
    }

    /** GET /api/allblogs: the query is built key by key; an unknown
        username answers 404 before anything is listed; an empty parameter
        adds no condition. The result is the AND of the three parts. */
    method AllBlogs(search: string, username: string, category: string) returns (status: int, blogs: seq<Post>)
      requires Valid()
      ensures status == NOT_FOUND <==> username != "" && FindUser(users, ByUsername(username)).None?
      ensures status != NOT_FOUND ==> status == OK
      ensures status == OK ==>
        forall p :: p in blogs <==>
          && (exists k :: k in posts && posts[k] == p)
          && (search != "" ==> MatchesSearch(p, search))
          && (username != "" ==> p.author == FindUser(users, ByUsername(username)).value.id)
          && (category != "" ==> p.category == category)
    {
      var query := Everything;
      if search != "" {
        query := query.(search := Some(search));
      }
      if username != "" {
        var user := FindUser(users, ByUsername(username));
        if user.Some? {
          query := query.(author := Some(user.value.id));
        } else {
          return NOT_FOUND, [];
        }
      }
      if category != "" {
        query := query.(category := Some(category));
      }
      blogs := Select(order, posts, query);
      forall p ensures p in blogs <==> Matches(p, query) && exists k :: k in posts && posts[k] == p {
        SelectMembers(order, posts, query, p);
      }
      status := OK;
    }
  }

  /** Appending a comment with the next fresh id keeps the ids unique and
      below the advanced counter. */
  lemma AppendFresh(cs: seq<Comment>, c: Comment, n: nat)
    requires UniqueCommentIds(cs) && CommentIdsBelow(cs, n) && c.id == n
    ensures UniqueCommentIds(cs + [c]) && CommentIdsBelow(cs + [c], n + 1)
  {
  }

  /** The pull keeps the comment ids below any bound they were below. */
  lemma {:induction false} PullBelow(cs: seq<Comment>, cid: ObjectId, n: nat)
    requires CommentIdsBelow(cs, n)
    ensures CommentIdsBelow(PullComment(cs, cid), n)
  {
    if |cs| > 0 {
      PullBelow(cs[1..], cid, n);
    }
  }

  /** A fresh comment id sits at the end of the comments it was appended to. */
  lemma FreshCommentIndex(cs: seq<Comment>, c: Comment, n: nat)
    requires CommentIdsBelow(cs, n) && c.id == n
    ensures CommentIndex(cs + [c], n) == |cs|
  {
    var i := CommentIndex(cs + [c], n);
    assert (cs + [c])[|cs|].id == n;
  }

  /** As written, a comment's own writer cannot edit it: the comment was
      stored without an author, and the ownership check throws. */
  method CommentThenEdit(s: BlogServer, userId: ObjectId, postId: ObjectId, text: string, newText: string)
    returns (addStatus: int, editStatus: int)
    requires s.Valid()
    requires postId in s.posts && FindUser(s.users, ById(userId)).Some? && text != "" && newText != ""
    modifies s
    ensures addStatus == CREATED && editStatus == INTERNAL_ERROR
  {
    var cid := s.nextId;
    var cs := s.posts[postId].comments;
    var username;
    addStatus, username := s.AddComment(Token(userId), postId, text);
    FreshCommentIndex(cs, Comment(cid, text, None), cid);
    editStatus := s.EditComment(Token(userId), postId, cid, newText);
  }

  /** With the comment attributed to its writer, the writer's edit goes through. */
  method CommentThenEditAttributed(s: BlogServer, userId: ObjectId, postId: ObjectId, text: string, newText: string)
    returns (addStatus: int, editStatus: int)
    requires s.Valid()
    requires postId in s.posts && FindUser(s.users, ById(userId)).Some? && text != "" && newText != ""
    modifies s
    ensures addStatus == CREATED && editStatus == OK
    ensures postId in s.posts && |s.posts[postId].comments| > 0
    ensures s.posts[postId].comments[|s.posts[postId].comments| - 1] == Comment(old(s.nextId), newText, Some(userId))
  {
    var cid := s.nextId;
    var cs := s.posts[postId].comments;
    var username;
    addStatus, username := s.AddCommentAttributed(Token(userId), postId, text);
    FreshCommentIndex(cs, Comment(cid, text, Some(userId)), cid);
    editStatus := s.EditComment(Token(userId), postId, cid, newText);
  }
}
