/** The feed page (frontend/src/Blogging.js): the posts it shows, the set of
    post ids the reader likes, and the local updates it makes after a like,
    a comment or a comment deletion, without fetching the feed again. */
module Blogging {
  import opened Outcomes
  import opened Seqs
  import opened Strings
  import opened Posts

  /** A comment as the page holds it. One the page appended itself after
      posting it carries no `_id` (the server echoes only text and name). */
  datatype ShownComment = ShownComment(id: Option<ObjectId>, text: string)

  /** A post as the page holds it after normalisation: `likes` is a count. */
  datatype ShownPost = ShownPost(id: ObjectId, likes: int, isLiked: bool, comments: seq<ShownComment>)

  /** The `likes` of a fetched post: a list of ids (what the server sends),
      a number, or a falsy value. */
  datatype LikesField = LikeList(ids: seq<ObjectId>) | LikeCount(n: int) | NoLikes

  datatype FetchedPost = FetchedPost(id: ObjectId, likes: LikesField, comments: Option<seq<ShownComment>>)

  /** `Array.isArray(post.likes) ? post.likes.length : post.likes || 0` */
  function LikeCountOf(f: LikesField): (n: int)
    ensures f.LikeList? ==> n == |f.ids|
    ensures f.LikeCount? ==> n == f.n
    ensures f.NoLikes? ==> n == 0
  {
    match f
    case LikeList(ids) => |ids|
    case LikeCount(n) => n
    case NoLikes => 0
  }

  /** `mergedPosts`: every fetched post in order, its `isLiked` read off the
      liked set, its likes turned into a count, its comments defaulting to
      none. */
  function Normalize(fetched: seq<FetchedPost>, liked: set<ObjectId>): (r: seq<ShownPost>)
    ensures |r| == |fetched|
    ensures forall k :: 0 <= k < |r| ==>
      && r[k].id == fetched[k].id
      && (r[k].isLiked <==> fetched[k].id in liked)
      && r[k].likes == LikeCountOf(fetched[k].likes)
      && r[k].comments == (if fetched[k].comments.Some? then fetched[k].comments.value else [])
  {
    seq(|fetched|, k requires 0 <= k < |fetched| =>
      var f := fetched[k];
      ShownPost(f.id, LikeCountOf(f.likes), f.id in liked, if f.comments.Some? then f.comments.value else []))
  }

  function ShowComment(c: Comment): ShownComment {
    ShownComment(Some(c.id), c.text)
  }

  function ShowComments(cs: seq<Comment>): (r: seq<ShownComment>)
    ensures |r| == |cs| && forall k :: 0 <= k < |cs| ==> r[k] == ShowComment(cs[k])
  {
    if |cs| == 0 then [] else [ShowComment(cs[0])] + ShowComments(cs[1..])
  }

  /** The stored posts listed by `ids`, as the server sends them. */
  function FromServer(ids: seq<ObjectId>, posts: map<ObjectId, Post>): (r: seq<FetchedPost>)
    requires forall k :: k in ids ==> k in posts
    ensures |r| == |ids|
    ensures forall k :: 0 <= k < |ids| ==>
      r[k] == FetchedPost(ids[k], LikeList(posts[ids[k]].likes), Some(ShowComments(posts[ids[k]].comments)))
  {
    seq(|ids|, k requires 0 <= k < |ids| =>
      FetchedPost(ids[k], LikeList(posts[ids[k]].likes), Some(ShowComments(posts[ids[k]].comments))))
  }

  /** The ids the liked-posts route reports for reader `u`. */
  function LikedIds(posts: map<ObjectId, Post>, u: ObjectId): (r: set<ObjectId>)
    ensures forall k :: k in r <==> k in posts && u in posts[k].likes
  {
    set k | k in posts && u in posts[k].likes
  }

  /** Normalising what the server sends gives each post the number of its
      likers and marks exactly the posts whose likes hold the reader. */
  lemma NormalizeAgreesWithServer(ids: seq<ObjectId>, posts: map<ObjectId, Post>, u: ObjectId)
    requires forall k :: k in ids ==> k in posts
    ensures var shown := Normalize(FromServer(ids, posts), LikedIds(posts, u));
      forall k :: 0 <= k < |ids| ==>
        && shown[k].likes == |posts[ids[k]].likes|
        && (shown[k].isLiked <==> u in posts[ids[k]].likes)
  {
    var fetched := FromServer(ids, posts);
    forall k | 0 <= k < |ids|
      ensures fetched[k].likes == LikeList(posts[ids[k]].likes) && fetched[k].id == ids[k]
    {
    }
  }

  function Max0(n: int): (r: int)
    ensures r >= 0 && r >= n && (n >= 0 ==> r == n)
  {
    if n < 0 then 0 else n
  }

  /** The `posts.map` after a like: the post with that id gets the count
      one lower (never below zero) when the reader had liked it and one
      higher otherwise, and `isLiked` flips; other posts are untouched. */
  function LikeUpdate(posts: seq<ShownPost>, postId: ObjectId, alreadyLiked: bool): (r: seq<ShownPost>)
    ensures |r| == |posts|
    ensures forall k :: 0 <= k < |posts| && posts[k].id != postId ==> r[k] == posts[k]
    ensures forall k :: 0 <= k < |posts| && posts[k].id == postId ==>
      && r[k].id == postId && r[k].comments == posts[k].comments
      && r[k].isLiked == !alreadyLiked
      && r[k].likes == (if alreadyLiked then Max0(posts[k].likes - 1) else posts[k].likes + 1)
      && (alreadyLiked || posts[k].likes >= 0 ==> r[k].likes >= 0)
  {
    seq(|posts|, k requires 0 <= k < |posts| =>
      var p := posts[k];
      if p.id == postId then
        p.(likes := if alreadyLiked then Max0(p.likes - 1) else p.likes + 1, isLiked := !alreadyLiked)
      else p)
  }

  /** Liking and then unliking a post the reader had not liked gives back
      the same list, provided its count was not negative. */
  lemma LikeThenUnlike(posts: seq<ShownPost>, postId: ObjectId)
    requires forall k :: 0 <= k < |posts| && posts[k].id == postId ==> !posts[k].isLiked && posts[k].likes >= 0
    ensures LikeUpdate(LikeUpdate(posts, postId, false), postId, true) == posts
  {
    var once := LikeUpdate(posts, postId, false);
    var twice := LikeUpdate(once, postId, true);
    forall k | 0 <= k < |posts| ensures twice[k] == posts[k] {
      if posts[k].id == postId {
        assert once[k].likes == posts[k].likes + 1;
      }
    }
  }

  /** While the page agrees with the server (the count is the number of
      likers, and the post is in the liked set exactly when the reader is
      among them), the count it shows after a like is the number of likers
      the server keeps: the like route toggles, the unlike route splices. */
  lemma CountTracksServer(likes: seq<ObjectId>, u: ObjectId, shown: int, alreadyLiked: bool)
    requires NoDup(likes) && shown == |likes| && (alreadyLiked <==> u in likes)
    ensures alreadyLiked ==> Max0(shown - 1) == |Posts.Unlike(likes, u)|
    ensures !alreadyLiked ==> shown + 1 == |ToggleLike(likes, u)|
  {
  }

  /** `liked.delete(id)` or `liked.add(id)` on a copy. */
  function Toggled(liked: set<ObjectId>, postId: ObjectId): (r: set<ObjectId>)
    ensures postId in r <==> postId !in liked
    ensures forall other :: other != postId ==> (other in r <==> other in liked)
  {
    if postId in liked then liked - {postId} else liked + {postId}
  }

  lemma ToggledTwice(liked: set<ObjectId>, postId: ObjectId)
    ensures Toggled(Toggled(liked, postId), postId) == liked
  {
  }

  /** `post.comments.filter(comment => comment._id !== commentId)`. The
      id is `undefined` (`None`) for a comment the page appended itself. */
  function DropComment(cs: seq<ShownComment>, commentId: Option<ObjectId>): (r: seq<ShownComment>)
    ensures |r| <= |cs|
  {
    if |cs| == 0 then []
    else (if cs[0].id == commentId then [] else [cs[0]]) + DropComment(cs[1..], commentId)
  }

  /** The filter keeps exactly the comments whose id differs. */
  lemma {:induction false} DropCommentMembers(cs: seq<ShownComment>, commentId: Option<ObjectId>)
    ensures forall c :: c in DropComment(cs, commentId) <==> c in cs && c.id != commentId
  {
    if |cs| > 0 {
      DropCommentMembers(cs[1..], commentId);
      assert cs == [cs[0]] + cs[1..];
    }
  }

  /** The local removal leaves the comments the server keeps after its
      `$pull`, which it performs whatever it answers. */
  lemma {:induction false} DropMatchesPull(cs: seq<Comment>, commentId: ObjectId)
    ensures DropComment(ShowComments(cs), Some(commentId)) == ShowComments(PullComment(cs, commentId))
  {
    if |cs| > 0 {
      DropMatchesPull(cs[1..], commentId);
      if cs[0].id != commentId {
        assert PullComment(cs, commentId) == [cs[0]] + PullComment(cs[1..], commentId);
      }
    }
  }

  /** Deleting a comment the page appended itself sends the id `undefined`,
      which the server refuses with 400 and keeps; the filter then drops
      every comment the page appended to that post, not just the one. */
  lemma DropUndefined(cs: seq<ShownComment>)
    ensures forall c :: c in DropComment(cs, None) <==> c in cs && c.id.Some?
  {
    DropCommentMembers(cs, None);
  }

  /** The `posts.map` after a comment deletion: only the post with that id
      loses its comments with that id. */
  function DropCommentIn(posts: seq<ShownPost>, postId: ObjectId, commentId: Option<ObjectId>): (r: seq<ShownPost>)
    ensures |r| == |posts|
    ensures forall k :: 0 <= k < |posts| ==>
      r[k] == if posts[k].id == postId then posts[k].(comments := DropComment(posts[k].comments, commentId)) else posts[k]
  {
    seq(|posts|, k requires 0 <= k < |posts| =>
      if posts[k].id == postId then posts[k].(comments := DropComment(posts[k].comments, commentId)) else posts[k])
  }

  /** The `posts.map` after a comment was posted: the echoed comment is
      appended to that post only. */
  function AppendCommentIn(posts: seq<ShownPost>, postId: ObjectId, c: ShownComment): (r: seq<ShownPost>)
    ensures |r| == |posts|
    ensures forall k :: 0 <= k < |posts| ==>
      r[k] == if posts[k].id == postId then posts[k].(comments := posts[k].comments + [c]) else posts[k]
  {
    seq(|posts|, k requires 0 <= k < |posts| =>
      if posts[k].id == postId then posts[k].(comments := posts[k].comments + [c]) else posts[k])
  }

  const ALL_BLOGS_URL := "http://localhost:5000/api/allblogs"

  /** A `${key}=${value}` filter. */
  function Pair(key: string, value: string): string {
    key + "=" + value
  }

  /** The filters `fetchPosts` pushes: the category before the username,
      each only when set. */
  function Filters(category: string, username: string): seq<string> {
    (if category != "" then [Pair("category", category)] else [])
      + (if username != "" then [Pair("username", username)] else [])
  }

  /** The query string: the filters joined by `&`, behind a `?` only when
      some filter is set. */
  function QueryString(category: string, username: string): string {
    var filters := Filters(category, username);
    if |filters| > 0 then "?" + Join(filters, "&") else ""
  }

  /** The first `key=value` piece of a `?a=b&c=d` query string. */
  function FindParam(pieces: seq<string>, key: string): Option<string> {
    if |pieces| == 0 then None
    else if |key| < |pieces[0]| && pieces[0][..|key| + 1] == key + "=" then Some(pieces[0][|key| + 1..])
    else FindParam(pieces[1..], key)
  }

  /** What the server reads under `key`; absent when nothing follows `?`. */
  function Param(q: string, key: string): Option<string> {
    if |q| == 0 || q[0] != '?' then None else FindParam(Split(q[1..], '&'), key)
  }

  lemma FindFirstParam(key: string, value: string, rest: seq<string>)
    ensures FindParam([Pair(key, value)] + rest, key) == Some(value)
  {
    var piece := Pair(key, value);
    assert piece[..|key| + 1] == key + "=";
    assert piece[|key| + 1..] == value;
  }

  lemma SkipOtherParam(key: string, piece: string, rest: seq<string>)
    requires |key| > 0 && |piece| > 0 && piece[0] != key[0]
    ensures FindParam([piece] + rest, key) == FindParam(rest, key)
  {
    if |key| < |piece| {
      assert piece[..|key| + 1][0] != (key + "=")[0];
    }
    assert ([piece] + rest)[1..] == rest;
  }

  /** The part of a URL a request carries: `fetch` drops the fragment,
      from the first `#` on. */
  function BeforeHash(url: string): (r: string)
    ensures '#' !in r
    ensures '#' !in url ==> r == url
  {
    if |url| == 0 || url[0] == '#' then "" else [url[0]] + BeforeHash(url[1..])
  }

  /** How the query parser decodes a value: each `+` stands for a space. */
  function PlusToSpace(s: string): (r: string)
    ensures |r| == |s|
    ensures forall k :: 0 <= k < |s| ==> r[k] == if s[k] == '+' then ' ' else s[k]
  {
    if |s| == 0 then "" else [if s[0] == '+' then ' ' else s[0]] + PlusToSpace(s[1..])
  }

  /** `req.query[key]` on the server for a request whose URL ends in `q`:
      the fragment is gone, the first `key=` piece is read, and its `+`
      signs are spaces. */
  function ServerRead(q: string, key: string): Option<string> {
    match Param(BeforeHash(q), key)
    case None => None
    case Some(v) => Some(PlusToSpace(v))
  }

  /** The server reads back the category and username filters that were
      set, each `+` as a space, and none that were not, so long as neither
      holds an `&`, a `#` or a `%`. */
  lemma QueryStringRoundTrip(category: string, username: string)
    requires '&' !in category && '&' !in username
    requires '#' !in category && '#' !in username
    requires '%' !in category && '%' !in username
    ensures ServerRead(QueryString(category, username), "category") ==
      if category == "" then None else Some(PlusToSpace(category))
    ensures ServerRead(QueryString(category, username), "username") ==
      if username == "" then None else Some(PlusToSpace(username))
  {
    QueryHasNoHash(category, username);
    ParamRoundTrip(category, username);
  }

  /** The page does not encode the filters, so a `+` in a username reaches
      the server as a space. */
  lemma PlusReadAsSpace()
    ensures ServerRead(QueryString("", "john+doe"), "username") == Some("john doe")
  {
    QueryStringRoundTrip("", "john+doe");
    PlusInJohnDoe();
  }

  lemma PlusInJohnDoe()
    ensures PlusToSpace("john+doe") == "john doe"
  {
    var r := PlusToSpace("john+doe");
    assert r[4] == ' ';
    assert forall k | 0 <= k < 8 && k != 4 :: r[k] == "john+doe"[k];
  }

  lemma QueryHasNoHash(category: string, username: string)
    requires '#' !in category && '#' !in username
    ensures '#' !in QueryString(category, username)
  {
    var filters := Filters(category, username);
    forall k | 0 <= k < |filters| ensures '#' !in filters[k] {
      assert '#' !in "category=" && '#' !in "username=";
    }
    NotInJoin(filters, "&", '#');
  }

  /** The first `key=` piece behind the `?` holds exactly the filters that
      were set, so long as neither holds an `&`. */
  lemma ParamRoundTrip(category: string, username: string)
    requires '&' !in category && '&' !in username
    ensures Param(QueryString(category, username), "category") == if category == "" then None else Some(category)
    ensures Param(QueryString(category, username), "username") == if username == "" then None else Some(username)
  {
    if category != "" && username != "" {
      RoundTripBoth(category, username);
    } else if category != "" {
      RoundTripCategory(category, username);
    } else if username != "" {
      RoundTripUsername(category, username);
    }
  }

  lemma RoundTripBoth(category: string, username: string)
    requires '&' !in category && '&' !in username && category != "" && username != ""
    ensures Param(QueryString(category, username), "category") == Some(category)
    ensures Param(QueryString(category, username), "username") == Some(username)
  {
    FiltersBoth(category, username);
    QueryPieces(category, username, "category");
    QueryPieces(category, username, "username");
    ReadBoth(category, username);
  }

  lemma FiltersBoth(category: string, username: string)
    requires category != "" && username != ""
    ensures Filters(category, username) == [Pair("category", category), Pair("username", username)]
  {
  }

  lemma RoundTripCategory(category: string, username: string)
    requires '&' !in category && category != "" && username == ""
    ensures Param(QueryString(category, username), "category") == Some(category)
    ensures Param(QueryString(category, username), "username") == None
  {
    QueryPieces(category, username, "category");
    QueryPieces(category, username, "username");
    assert Filters(category, username) == [Pair("category", category)];
    ReadOne("category", category, "username");
  }

  lemma RoundTripUsername(category: string, username: string)
    requires '&' !in username && category == "" && username != ""
    ensures Param(QueryString(category, username), "category") == None
    ensures Param(QueryString(category, username), "username") == Some(username)
  {
    QueryPieces(category, username, "category");
    QueryPieces(category, username, "username");
    assert Filters(category, username) == [Pair("username", username)];
    ReadOne("username", username, "category");
  }

  /** Reading both filters back from their two pieces. */
  lemma ReadBoth(category: string, username: string)
    ensures var pieces := [Pair("category", category), Pair("username", username)];
      FindParam(pieces, "category") == Some(category) && FindParam(pieces, "username") == Some(username)
  {
    var c, u := Pair("category", category), Pair("username", username);
    assert [c, u] == [c] + [u];
    FindFirstParam("category", category, [u]);
    SkipOtherParam("username", c, [u]);
    assert [u] == [u] + [];
    FindFirstParam("username", username, []);
  }

  /** Reading one filter back from its piece, and finding no other. */
  lemma ReadOne(key: string, value: string, other: string)
    requires |key| > 0 && |other| > 0 && key[0] != other[0]
    ensures FindParam([Pair(key, value)], key) == Some(value)
    ensures FindParam([Pair(key, value)], other) == None
  {
    var piece := Pair(key, value);
    assert [piece] == [piece] + [];
    FindFirstParam(key, value, []);
    SkipOtherParam(other, piece, []);
  }

  /** Behind its `?`, the query string splits on `&` into the filters, so
      the server reads any key from them. */
  lemma QueryPieces(category: string, username: string, key: string)
    requires '&' !in category && '&' !in username && Filters(category, username) != []
    ensures Param(QueryString(category, username), key) == FindParam(Filters(category, username), key)
  {
    var filters := Filters(category, username);
    var q := QueryString(category, username);
    assert q[1..] == Join(filters, "&");
    assert '&' !in Pair("category", category) && '&' !in Pair("username", username);
    SplitJoin(filters, '&');
  }

  datatype LikeRequest = LikeRoute | UnlikeRoute

  class BloggingPage {
    var posts: seq<ShownPost>
    /** Ids of the posts the reader likes. */
    var likedPosts: set<ObjectId>
    var searchResults: seq<ShownPost>
    var searchTerm: string
    var commentText: string
    var categoryFilter: string
    var usernameFilter: string

    constructor ()
      ensures posts == [] && likedPosts == {} && searchResults == [] && searchTerm == "" && commentText == ""
      ensures categoryFilter == "" && usernameFilter == ""
    {
      posts, likedPosts, searchResults := [], {}, [];
      searchTerm, commentText, categoryFilter, usernameFilter := "", "", "", "";
    }

    /** `displayedPosts`: the search results while a search term is set. */
    function Displayed(): (r: seq<ShownPost>)
      reads this
      ensures searchTerm != "" ==> r == searchResults
      ensures searchTerm == "" ==> r == posts
    {
      if searchTerm != "" then searchResults else posts
    }

    /** The URL `fetchPosts` requests: filters pushed one by one, category
        first, then appended behind a `?`. */
    method FetchUrl() returns (url: string)
      ensures url == ALL_BLOGS_URL + QueryString(categoryFilter, usernameFilter)
    {
      url := ALL_BLOGS_URL;
      var filters: seq<string> := [];
      if categoryFilter != "" {
        filters := filters + [Pair("category", categoryFilter)];
      }
      if usernameFilter != "" {
        filters := filters + [Pair("username", usernameFilter)];
      }
      assert filters == Filters(categoryFilter, usernameFilter);
      if |filters| > 0 {
        url := url + ("?" + Join(filters, "&"));
      }
    }

    /** `handleLike`: the route is chosen from the liked set; once the
        request succeeds the count and `isLiked` of that post change and the
        liked set is toggled on a copy; a failed request changes nothing. */
    method HandleLike(postId: ObjectId, requestOk: bool) returns (route: LikeRequest)
      modifies this
      ensures route == if postId in old(likedPosts) then UnlikeRoute else LikeRoute
      ensures requestOk ==> posts == LikeUpdate(old(posts), postId, postId in old(likedPosts))
      ensures requestOk ==> likedPosts == Toggled(old(likedPosts), postId)
      ensures !requestOk ==> posts == old(posts) && likedPosts == old(likedPosts)
      ensures searchResults == old(searchResults) && searchTerm == old(searchTerm) && commentText == old(commentText)
      ensures categoryFilter == old(categoryFilter) && usernameFilter == old(usernameFilter)
    {
      var alreadyLiked := postId in likedPosts;
      route := if alreadyLiked then UnlikeRoute else LikeRoute;
      if !requestOk {
        return;
      }
      posts := LikeUpdate(posts, postId, alreadyLiked);
      var newLikedPosts := likedPosts;
      if alreadyLiked {
        newLikedPosts := newLikedPosts - {postId};
      } else {
        newLikedPosts := newLikedPosts + {postId};
      }
      likedPosts := newLikedPosts;
    }

    /** `handleComment`: a text blank after trimming sends nothing; after a
        successful post the echoed comment is appended and the box cleared. */
    method HandleComment(postId: ObjectId, requestOk: bool) returns (sent: bool)
      modifies this
      ensures sent <==> Trim(old(commentText)) != ""
      ensures sent && requestOk ==>
        posts == AppendCommentIn(old(posts), postId, ShownComment(None, old(commentText))) && commentText == ""
      ensures !(sent && requestOk) ==> posts == old(posts) && commentText == old(commentText)
      ensures likedPosts == old(likedPosts) && searchResults == old(searchResults) && searchTerm == old(searchTerm)
      ensures categoryFilter == old(categoryFilter) && usernameFilter == old(usernameFilter)
    {
      if Trim(commentText) == "" {
        return false;
      }
      sent := true;
      CommentPosted(postId, requestOk);
    }

    /** The reply to the comment request: on success the echoed comment is
        appended and the box cleared; a failure changes nothing. */
    method CommentPosted(postId: ObjectId, requestOk: bool)
      modifies this
      ensures requestOk ==>
        posts == AppendCommentIn(old(posts), postId, ShownComment(None, old(commentText))) && commentText == ""
      ensures !requestOk ==> posts == old(posts) && commentText == old(commentText)
      ensures likedPosts == old(likedPosts) && searchResults == old(searchResults) && searchTerm == old(searchTerm)
      ensures categoryFilter == old(categoryFilter) && usernameFilter == old(usernameFilter)
    {
      if requestOk {
        posts := AppendCommentIn(posts, postId, ShownComment(None, commentText));
        commentText := "";
      }
    }

    /** `handleDeleteComment`: once confirmed, the comment leaves the local
        list whether the request succeeded or failed. */
    method HandleDeleteComment(postId: ObjectId, commentId: Option<ObjectId>, confirmed: bool, requestOk: bool)
      modifies this
      ensures confirmed ==> posts == DropCommentIn(old(posts), postId, commentId)
      ensures !confirmed ==> posts == old(posts)
      ensures likedPosts == old(likedPosts) && searchResults == old(searchResults) && searchTerm == old(searchTerm)
      ensures commentText == old(commentText)
      ensures categoryFilter == old(categoryFilter) && usernameFilter == old(usernameFilter)
    {
      if !confirmed {
        return;
      }
      if requestOk {
        posts := DropCommentIn(posts, postId, commentId);
      } else {
        posts := DropCommentIn(posts, postId, commentId);
      }
    }
  }
}
