/** Listing posts: the query document a handler builds and the posts
    `Blog.find(query)` returns for it, in collection order. */
module Feed {
  import opened Outcomes
  import opened Strings
  import opened Posts

  /** A query document; each part that is present is one more condition. */
  datatype Query = Query(
    search: Option<string>,
    author: Option<ObjectId>,
    category: Option<string>,
    likedBy: Option<ObjectId>)

  /** `{}`: no condition at all. */
  const Everything: Query := Query(None, None, None, None)

  /** The `$or` of the search: title, content or one of the tags contains the
      term, ignoring case. */
  predicate MatchesSearch(p: Post, term: string) {
    || ContainsIgnoringCase(p.title, term)
    || ContainsIgnoringCase(p.content, term)
    || exists k :: 0 <= k < |p.tags| && ContainsIgnoringCase(p.tags[k], term)
  }

  predicate Matches(p: Post, q: Query) {
    && (q.search.Some? ==> MatchesSearch(p, q.search.value))
    && (q.author.Some? ==> p.author == q.author.value)
    && (q.category.Some? ==> p.category == q.category.value)
    && (q.likedBy.Some? ==> q.likedBy.value in p.likes)
  }

  /** `Blog.find(query)` over the documents `ids` in collection order. */
  function Select(ids: seq<ObjectId>, posts: map<ObjectId, Post>, q: Query): (r: seq<Post>)
    requires forall k :: k in ids ==> k in posts
    ensures |r| <= |ids|
    ensures forall i :: 0 <= i < |r| ==> Matches(r[i], q)
  {
    if |ids| == 0 then []
    else
      var last := ids[|ids| - 1];
      Select(ids[..|ids| - 1], posts, q) + (if Matches(posts[last], q) then [posts[last]] else [])
  }

  /** A post is listed exactly when it is stored under one of the ids and
      satisfies the query. */
  lemma {:induction false} SelectMembers(ids: seq<ObjectId>, posts: map<ObjectId, Post>, q: Query, p: Post)
    requires forall k :: k in ids ==> k in posts
    ensures p in Select(ids, posts, q) <==> Matches(p, q) && exists k :: k in ids && posts[k] == p
  {
    if |ids| > 0 {
      var init, last := ids[..|ids| - 1], ids[|ids| - 1];
      assert ids == init + [last];
      SelectMembers(init, posts, q, p);
      if exists k :: k in ids && posts[k] == p {
        var k :| k in ids && posts[k] == p;
        assert k in init || k == last;
      }
    }
  }

  /** The two posts of the feed example: a category filter keeps only the
      first, and the search term "go" finds it by its title. */
  lemma FeedExample(goBasics: Post, travelLog: Post)
    requires goBasics.title == "Go basics" && goBasics.category == "Technology"
    requires travelLog.title == "Travel log" && travelLog.category == "Travel"
    ensures Select([1, 2], map[1 := goBasics, 2 := travelLog], Everything.(category := Some("Technology"))) == [goBasics]
    ensures MatchesSearch(goBasics, "go")
  {
    var posts := map[1 := goBasics, 2 := travelLog];
    assert [1, 2][..1] == [1];
    assert [1][..0] == [];
    assert Lower("go") == "go";
    assert Lower(goBasics.title)[0..2] == "go";
    assert OccursAt(Lower("go"), Lower(goBasics.title), 0);
  }
}
