/** The Blog document of backend/server.js and the changes the route handlers
    make to a single post: the like toggle, the unlike splice, the partial
    edit merge and the comment list updates. */
module Posts {
  import opened Outcomes
  import opened Seqs

  /** Document ids (posts, comments, users); their ObjectId format is not modelled. */
  type ObjectId = nat

  /** An embedded comment. */
  datatype Comment = Comment(id: ObjectId, text: string, author: Option<ObjectId>)

  datatype Post = Post(
    title: string,
    content: string,
    category: string,
    tags: seq<string>,
    author: ObjectId,
    likes: seq<ObjectId>,
    comments: seq<Comment>)

  predicate UniqueCommentIds(cs: seq<Comment>) {
    forall i, j :: 0 <= i < j < |cs| ==> cs[i].id != cs[j].id
  }

  /** What every stored post keeps: no user twice among its likes and no
      comment id twice among its comments. */
  predicate WellFormed(p: Post) {
    NoDup(p.likes) && UniqueCommentIds(p.comments)
  }

  /** The blog schema's `required` fields are set. */
  predicate HasRequired(p: Post) {
    p.title != "" && p.content != "" && p.category != ""
  }

  /** `new Blog({ title, content, category, tags, author })`. */
  function NewPost(title: string, content: string, category: string, tags: seq<string>, author: ObjectId): (p: Post)
    ensures WellFormed(p)
    ensures p.author == author && p.likes == [] && p.comments == []
    ensures HasRequired(p) <==> title != "" && content != "" && category != ""
  {
    Post(title, content, category, tags, author, [], [])
  }

  // ---------------------------------------------------------------- likes

  /** The like toggle: a caller already present is filtered out (every
      occurrence); otherwise the caller is pushed at the end. */
  function ToggleLike(likes: seq<ObjectId>, u: ObjectId): (r: seq<ObjectId>)
    ensures u in r <==> u !in likes
    ensures forall v :: v != u ==> (v in r <==> v in likes)
    ensures NoDup(likes) ==> NoDup(r)
    ensures |r| == if u in likes then |likes| - multiset(likes)[u] else |likes| + 1
  {
    if u in likes then
      RemoveAllNoDup(likes, u);
      RemoveAll(likes, u)
    else
      likes + [u]
  }

  /** Toggling twice gives back the same likers, the same count and no
      duplicate; when the caller had not liked, the very same list. */
  lemma ToggleTwice(likes: seq<ObjectId>, u: ObjectId)
    requires NoDup(likes)
    ensures var r := ToggleLike(ToggleLike(likes, u), u);
      |r| == |likes| && NoDup(r) && forall v :: v in r <==> v in likes
    ensures u !in likes ==> ToggleLike(ToggleLike(likes, u), u) == likes
  {
    if u in likes {
      NoDupOccursOnce(likes, u);
    } else {
      RemoveAllSingle(likes, u, []);
      assert likes + [u] + [] == likes + [u] && likes + [] == likes;
    }
  }

  /** The unlike route after its membership check: `likes.splice(likes.indexOf(u), 1)`. */
  function Unlike(likes: seq<ObjectId>, u: ObjectId): (r: seq<ObjectId>)
    requires u in likes
    ensures |r| == |likes| - 1
    ensures multiset(r) == multiset(likes) - multiset{u}
    ensures NoDup(likes) ==> u !in r
    ensures exists i :: 0 <= i < |likes| && likes[i] == u && u !in likes[..i] && r == likes[..i] + likes[i + 1..]
  {
    var i := IndexOf(likes, u);
    NoDupOccursOnce(likes, u);
    assert u !in likes[..i] by {
      forall k | 0 <= k < i ensures likes[..i][k] != u {
        assert likes[..i][k] == likes[k];
      }
    }
    RemoveAt(likes, i)
  }

  /** On a list without duplicates, unlike and the toggle remove the same entry. */
  lemma UnlikeAgreesWithToggle(likes: seq<ObjectId>, u: ObjectId)
    requires NoDup(likes) && u in likes
    ensures Unlike(likes, u) == ToggleLike(likes, u)
  {
    var i := IndexOf(likes, u);
    var a, b := likes[..i], likes[i + 1..];
    assert likes == a + [u] + b;
    assert u !in b;
    RemoveAllSingle(a, u, b);
  }

  /** With a duplicated liker the two routes differ: the toggle drops every
      occurrence, unlike only the first. */
  lemma ToggleAndUnlikeDifferOnDuplicates(u: ObjectId)
    ensures ToggleLike([u, u], u) == []
    ensures Unlike([u, u], u) == [u]
  {
    assert [u, u][1..] == [u];
  }

  // ---------------------------------------------------------------- edit

  /** The partial merge of an edit: `x || current` for title, content and
      category, and the parsed tags only when there is at least one. */
  function Merge(p: Post, title: string, content: string, category: string, tags: seq<string>): (r: Post)
    ensures r.author == p.author && r.likes == p.likes && r.comments == p.comments
    ensures title != "" ==> r.title == title
    ensures title == "" ==> r.title == p.title
    ensures content != "" ==> r.content == content
    ensures content == "" ==> r.content == p.content
    ensures category != "" ==> r.category == category
    ensures category == "" ==> r.category == p.category
    ensures |tags| > 0 ==> r.tags == tags
    ensures tags == [] ==> r.tags == p.tags
    ensures (p.title != "" ==> r.title != "") && (p.content != "" ==> r.content != "")
    ensures p.category != "" ==> r.category != ""
    ensures title == "" && content == "" && category == "" && tags == [] ==> r == p
  {
    p.(title := if title != "" then title else p.title,
       content := if content != "" then content else p.content,
       category := if category != "" then category else p.category,
       tags := if |tags| > 0 then tags else p.tags)
  }

  /** Applying the same edit twice changes nothing more. */
  lemma MergeIdempotent(p: Post, title: string, content: string, category: string, tags: seq<string>)
    ensures var once := Merge(p, title, content, category, tags);
      Merge(once, title, content, category, tags) == once
  {
  }

  /** An edit that carries only a title changes only the title. */
  lemma MergeTitleOnly(p: Post, title: string)
    requires title != ""
    ensures Merge(p, title, "", "", []) == p.(title := title)
  {
  }

  // ---------------------------------------------------------------- comments

  /** `blog.comments.id(cid)`: the position of the comment with that id, or -1. */
  function CommentIndex(cs: seq<Comment>, cid: ObjectId): (i: int)
    ensures -1 <= i < |cs|
    ensures i == -1 <==> forall k :: 0 <= k < |cs| ==> cs[k].id != cid
    ensures 0 <= i ==> cs[i].id == cid && forall k :: 0 <= k < i ==> cs[k].id != cid
  {
    if |cs| == 0 then -1
    else if cs[0].id == cid then 0
    else
      var j := CommentIndex(cs[1..], cid);
      if j == -1 then -1 else j + 1
  }

  /** `$pull: { comments: { _id: cid } }`: every comment with that id removed,
      the others kept in order. */
  function PullComment(cs: seq<Comment>, cid: ObjectId): (r: seq<Comment>)
    ensures |r| <= |cs|
    ensures forall k :: 0 <= k < |r| ==> r[k] in cs && r[k].id != cid
  {
    if |cs| == 0 then []
    else (if cs[0].id == cid then [] else [cs[0]]) + PullComment(cs[1..], cid)
  }

  /** The pull keeps exactly the comments with another id, and keeps the ids
      unique. */
  lemma {:induction false} PullKeeps(cs: seq<Comment>, cid: ObjectId)
    ensures forall c :: c in PullComment(cs, cid) <==> c in cs && c.id != cid
    ensures UniqueCommentIds(cs) ==> UniqueCommentIds(PullComment(cs, cid))
  {
    if |cs| > 0 {
      PullKeeps(cs[1..], cid);
      assert cs == [cs[0]] + cs[1..];
      var rest := PullComment(cs[1..], cid);
      if UniqueCommentIds(cs) {
        assert UniqueCommentIds(cs[1..]);
        assert forall c :: c in rest ==> c.id != cs[0].id;
      }
    }
  }

  /** With unique ids, pulling a present comment takes out exactly that one. */
  lemma {:induction false} PullPresent(cs: seq<Comment>, cid: ObjectId)
    requires UniqueCommentIds(cs) && CommentIndex(cs, cid) >= 0
    ensures PullComment(cs, cid) == RemoveAt(cs, CommentIndex(cs, cid))
  {
    if cs[0].id == cid {
      PullHead(cs, cid);
    } else {
      var j := CommentIndex(cs[1..], cid);
      assert CommentIndex(cs, cid) == j + 1;
      assert PullComment(cs, cid) == [cs[0]] + PullComment(cs[1..], cid);
      UniqueTail(cs);
      PullPresent(cs[1..], cid);
      RemoveAtCons(cs, j);
    }
  }

  /** With unique ids, a pull of the first comment's id leaves the rest. */
  lemma PullHead(cs: seq<Comment>, cid: ObjectId)
    requires UniqueCommentIds(cs) && |cs| > 0 && cs[0].id == cid
    ensures PullComment(cs, cid) == cs[1..]
  {
    var tail := cs[1..];
    forall k | 0 <= k < |tail| ensures tail[k].id != cid {
      assert tail[k] == cs[k + 1];
    }
    PullAbsent(tail, cid);
  }

  lemma UniqueTail(cs: seq<Comment>)
    requires UniqueCommentIds(cs) && |cs| > 0
    ensures UniqueCommentIds(cs[1..])
  {
    var tail := cs[1..];
    forall i, j | 0 <= i < j < |tail| ensures tail[i].id != tail[j].id {
      assert tail[i] == cs[i + 1] && tail[j] == cs[j + 1];
    }
  }

  lemma {:induction false} PullAbsent(cs: seq<Comment>, cid: ObjectId)
    requires forall k :: 0 <= k < |cs| ==> cs[k].id != cid
    ensures PullComment(cs, cid) == cs
  {
    if |cs| > 0 {
      PullAbsent(cs[1..], cid);
    }
  }

  /** `comment.text = newText` on the comment at position `i`. */
  function SetCommentText(cs: seq<Comment>, i: nat, text: string): (r: seq<Comment>)
    requires i < |cs|
    ensures |r| == |cs| && r[i].text == text
    ensures r[i].id == cs[i].id && r[i].author == cs[i].author
    ensures forall k :: 0 <= k < |cs| && k != i ==> r[k] == cs[k]
    ensures UniqueCommentIds(cs) ==> UniqueCommentIds(r)
  {
    cs[i := cs[i].(text := text)]
  }
}
