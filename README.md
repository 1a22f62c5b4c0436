# Blog post engine: a verified model

This project models the post engine of a small blogging application: the
Express route handlers that create, edit and delete posts, toggle likes,
add, edit and delete comments, and list the feed (backend/server.js). It
also models the client-side rules around that engine:

- the registration and login form checks (frontend/src/Register.js,
  frontend/src/Login.js);
- the user schema constraints (backend/models/User.js);
- the feed page's local state updates (frontend/src/Blogging.js);
- the create/edit form's tag handling (frontend/src/BlogForm.js).

Layout, one module per file:

- `Outcomes`: `Option`, `Result` and the HTTP status codes.
- `Seqs`: the JavaScript array operations the handlers use (`indexOf`,
  `filter`, `splice`), and the last-occurrence search the email check
  in `Validators` reads the last `.` with.
- `Strings`: JavaScript string operations:
  - `trim`, `split`, `join`;
  - `.length` counted in UTF-16 units;
  - case-insensitive substring search.
- `Tags`: parsing and checking the `tags` field of a create or edit request.
- `Posts`: the post document and the pure updates the handlers make to it:
  - the like toggle, the unlike splice and the partial merge;
  - the comment lookup, `$pull` and text edit.
- `Users`: the user documents and `findOne`/`findById`.
- `Feed`: the `/api/allblogs` query as a predicate, and the listing it selects.
- `Server`: class `BlogServer`. It holds the posts collection (a map from id to
  post, plus the insertion order), the users collection and the id supply.
  Each route handler is a method. Each one returns the status code and either
  leaves the store as it was or changes exactly one document. The class
  invariant `Valid()` says:
  - no post's likes hold a user twice;
  - comment ids are unique within a post;
  - ids, usernames and emails are unique among users;
  - the order and the map hold the same ids;
  - every id is below the next fresh one;
  - every stored post has the title, content and category its schema requires.
- `Validators`:
  - the email regular expression, as a character-class predicate proved equal
    to the form's first-`@`/last-`.` reading;
  - the mobile expression `^\d{10}$`, defined directly as ten ASCII digits;
  - the password lookaheads, proved to imply the three character classes, and
    to follow from them only on single-line input;
  - the password strength tiers and the user schema.
- `RegisterForm`, `LoginForm`: `validate()` as an error map, and how a submit
  turns the server's reply into the next form state.
- `Blogging`: class `BloggingPage` (the page's posts, liked set, filters and
  comment box). Also the pure list updates it applies and the query string it
  builds.
- `BlogFormPage`: class `BlogForm` (fields, loading flag, edit mode) and the
  request bodies it sends.

Modelling choices:

- Document ids (`ObjectId`) are natural numbers from one counter shared by
  posts, comments and users.
- The `authenticate` middleware is the `Credential` value a handler receives:
  - no header gives 401;
  - a token that fails verification gives 403;
  - a verified token gives the caller's id.
- A request field that is absent is modelled as the empty string. Both are
  falsy, and both fail a schema's `required`.
- The `tags` field is a `TagsField`: missing, text, or a JSON array. The
  handler calls `.split` on an array, which throws, so the answer is 500.
- A failed schema validation on `save` (an empty title, comment text, etc.)
  is the 500 the handler's `catch` sends.
- Request outcomes the client waits on (`requestOk`, `Reply`) and tokens are
  parameters.

Where the code and its design description disagree, the model follows the code:

- An invalid token gets 403, not 401.
- Comment routes never see an author on a comment created through the API.
- The delete-comment route never answers 200.
- The edit route checks the tags (400) before it looks the post up (404).
- Missing required fields give 500, not 400.

## Model

| member | source | states |
|---|---|---|
| Seqs.IndexOf | backend/server.js:518 | `likes.indexOf(u)`: -1 exactly when `u` is absent, otherwise the first position holding `u` |
| Seqs.RemoveAll | backend/server.js:267 | the `filter`: exactly the other elements remain, and the length drops by the number of copies of `x` |
| Seqs.RemoveAt | backend/server.js:524 | `splice(i, 1)`: one element fewer, and the multiset loses exactly `s[i]` |
| Seqs.RemoveAllNoDup | backend/server.js:267 | filtering a duplicate-free list leaves it duplicate-free |
| Strings.Trim | backend/server.js:188 | `trim()`: the result has no whitespace at either end, and a string already trimmed is returned unchanged |
| Strings.TrimEmptyIffBlank | frontend/src/Login.js:14-21 | `s.trim()` is empty exactly when `s` is all whitespace |
| Strings.Split | backend/server.js:188 | `split(d)` gives at least one piece, no piece holds `d`, and joining the pieces with `d` rebuilds the string |
| Strings.SplitJoin | frontend/src/BlogForm.js:40 | splitting a `d`-joined list whose items hold no `d` gives the list back |
| Strings.JsLength | backend/server.js:196 | `.length` lies between the number of characters and twice that, and is 0 exactly for the empty string |
| Tags.SplitTrim | backend/server.js:188 | `split(',').map(trim)`: one tag per piece, each trimmed and comma-free |
| Tags.CheckTags | backend/server.js:186-198 | tags accepted only when every tag is 1..50 long, trimmed and comma-free; rejection is 400, or 500 exactly for an array field; `[]` exactly for a falsy field |
| Tags.TextRejectedIffBadPiece | backend/server.js:194-198 | a non-empty tags text is rejected with 400 iff some trimmed piece is empty or longer than 50; if accepted, the tags are the split-and-trimmed pieces |
| Tags.SplitTrimJoin | frontend/src/BlogForm.js:40 | parsing `tags.join(', ')` gives back trimmed, comma-free tags |
| Tags.CheckTagsOfJoined | backend/server.js:218-223 | the server accepts `tags.join(', ')` for valid tags and stores exactly those tags |
| Posts.NewPost | backend/server.js:200 | a new post is authored by the caller, has no likes and no comments, and is well formed |
| Posts.ToggleLike | backend/server.js:262-270 | the caller is a liker afterwards iff they were not before; other likers are kept; no duplicate is introduced; the count changes by +1 or by minus the caller's copies |
| Posts.ToggleTwice | backend/server.js:262-270 | toggling twice restores the set of likers and the count, and returns the very same list when the caller had not liked |
| Posts.Unlike | backend/server.js:517-524 | exactly one entry (the caller's first) leaves the likes; with no duplicates the caller is gone |
| Posts.UnlikeAgreesWithToggle | backend/server.js:267 | on duplicate-free likes, splicing the first occurrence and filtering all occurrences agree |
| Posts.ToggleAndUnlikeDifferOnDuplicates | backend/server.js:524 | on `[u, u]` the toggle empties the list while unlike leaves `[u]` |
| Posts.Merge | backend/server.js:237-240 | author, likes and comments untouched; a non-empty title, content or category replaces the stored one and an empty one keeps it; a non-empty tag list replaces the stored tags and an empty one keeps them; a non-empty field never becomes empty |
| Posts.MergeIdempotent | backend/server.js:237-240 | applying the same edit twice equals applying it once |
| Posts.MergeTitleOnly | backend/server.js:237-240 | an edit with only a title changes only the title |
| Posts.CommentIndex | backend/server.js:386 | `comments.id(cid)`: -1 exactly when no comment has that id, otherwise the first such position |
| Posts.PullComment | backend/server.js:331-335 | `$pull`: the result is no longer than the input and holds only input comments whose id differs |
| Posts.PullKeeps | backend/server.js:331-335 | a comment survives the pull iff it was there and its id differs; unique ids stay unique |
| Posts.PullPresent | backend/server.js:331-335 | with unique ids, the pull removes exactly the one comment found by the lookup |
| Posts.SetCommentText | backend/server.js:397 | only the text of the one comment changes; ids and authors stay |
| Users.FindUser | backend/server.js:44-49 | `findOne`: some user with the key, or none exactly when no user has it |
| Users.FindByOwnUsername | backend/server.js:452-456 | under the unique indexes, looking up a user's own username finds that user |
| Feed.Select | backend/server.js:467 | `Blog.find(query)`: at most the stored posts, each matching the query |
| Feed.SelectMembers | backend/server.js:443-467 | a post is listed iff it is stored and matches the query |
| Feed.FeedExample | backend/server.js:462-464 | the category filter selects only the posts of that category, and the search matches a title case-insensitively |
| Server.AuthFailure | backend/server.js:147-160 | no header gives 401, a bad token 403 |
| Server.BlogServer.Save | backend/server.js:243 | `blog.save()` replaces the one stored document and keeps the store's invariant; nothing else changes |
| Server.BlogServer.SaveWithFreshId | backend/server.js:302-308 | saving a post whose pushed comment took the next fresh id keeps the store's invariant and uses that id up; nothing else changes |
| Server.BlogServer.Register | backend/server.js:40-63 | a taken username gives 409 "username" and then a taken email 409 "email"; an empty username, email or mobile then gives 500 (an empty password is hashed and accepted); otherwise exactly one user is appended and the answer is 201 |
| Server.BlogServer.GetBlog | backend/server.js:165-180 | 404 iff absent, otherwise the stored post |
| Server.BlogServer.CreateBlog | backend/server.js:183-207 | auth failure, then tag failure (400/500), then 500 for an empty field; 201 iff none applies, storing a fresh post by the caller with the checked tags, appended to the order; nothing changes on failure |
| Server.BlogServer.UpdateBlog | backend/server.js:209-252 | in order: auth, tags, 404, 403 for a non-author; 200 iff the caller is the author and the tags check, and then only that post becomes the merge; nothing changes otherwise |
| Server.BlogServer.DeleteBlog | backend/server.js:485-502 | 404, then 403 for a non-author; 200 iff the caller is the author, removing the post (likes and comments with it) from the map and the order |
| Server.BlogServer.Like | backend/server.js:255-284 | 404 for an absent post; otherwise the likes become the toggle; the answer's count is the new length and `likedByUser` is whether the caller was absent before; the count moves by exactly one |
| Server.BlogServer.Unlike | backend/server.js:505-532 | 404, then 400 when the caller is not a liker; 200 iff they are, removing exactly one entry and leaving the caller absent |
| Server.BlogServer.AddComment | backend/server.js:287-317 | 404 for an absent post or user, 500 for empty text; 201 iff none applies, appending exactly one comment at the end, stored without an author |
| Server.BlogServer.EditComment | backend/server.js:376-405 | 404 for an absent post or comment; 500 for a comment without an author; 403 for another author's comment; 200 iff the caller is the comment's author and the text is non-empty, changing only that text |
| Server.BlogServer.DeleteComment | backend/server.js:321-356 | 400 for a malformed id; on an existing post the comment is pulled first and the answer is always 404; never 200, and never 403 for a verified caller |
| Server.BlogServer.UserBlogs | backend/server.js:429-437 | the listed posts are exactly the stored posts the caller authored |
| Server.BlogServer.LikedPosts | backend/server.js:641-655 | the listed posts are exactly the stored posts whose likes hold the caller |
| Server.BlogServer.AllBlogs | backend/server.js:441-481 | 404 iff a username is given and unknown; otherwise a post is listed iff stored AND (no search or title/content/some tag contains it ignoring case) AND (no username or authored by that user) AND (no category or equal category) |
| Server.BlogServer.AddCommentAttributed | backend/server.js:302-305 | the comment route with the comment's author set to the caller: 201 appends exactly one comment owned by the caller |
| Server.BlogServer.DeleteCommentChecked | backend/server.js:341-349 | the edit route's checks before the pull: 404 for an absent post or comment, 500 for a comment without an author, 403 for another author's comment; 200 iff the comment exists and is the caller's, removing exactly that comment; nothing changes otherwise |
| Server.CommentThenEdit | backend/server.js:302-307 | as written, commenting and then editing one's own comment gives 201 then 500 |
| Server.CommentThenEditAttributed | backend/server.js:392-397 | with the author recorded, the writer's edit succeeds and only the text changes |
| Validators.EmailPatternIffIsEmail | frontend/src/Register.js:21 | the first-`@`/last-`.` check accepts exactly the strings the email regex matches |
| Validators.EmailPatternIsTrimmed | backend/models/User.js:15 | a string the email regex matches is non-empty and has no whitespace at either end |
| Validators.EmailSplitShape | backend/models/User.js:15 | an email the regex matches holds exactly one `@` and ends in a dot and at least two letters |
| Validators.PasswordPatternIffClasses | frontend/src/Register.js:27 | the lookaheads imply a lowercase letter, an uppercase letter and a special character; on a single line these three imply the lookaheads |
| Validators.PasswordPatternNeedsOneLine | frontend/src/Register.js:27 | `"a\nA!"` has all three classes, yet the lookaheads fail |
| Validators.PasswordStrength | frontend/src/Register.js:63-72 | weak iff length < 6, strong iff length >= 10, medium otherwise |
| Validators.StrengthMonotone | frontend/src/Register.js:66-72 | a longer password never gets a lower tier |
| Validators.AcceptedIsNotWeak | frontend/src/Register.js:27 | a password the form accepts is never weak |
| RegisterForm.Validate | frontend/src/Register.js:16-34 | a field has an error iff its check fails (username shorter than 6, email not matching, mobile not ten digits, password too short or missing a class, confirmation differing), holding that check's own message; no server error is set |
| RegisterForm.ValidateAgreesWithSchema | backend/models/User.js:4-28 | the form reports no error iff the user satisfies every schema constraint and the confirmation matches |
| RegisterForm.Submit | frontend/src/Register.js:36-61 | a request is sent iff there are no errors; success clears every field; a 409 puts its message under the field the server named; any other failure gives the server error |
| LoginForm.Validate | frontend/src/Login.js:12-23 | a blank email gives "Please enter" and skips the format check; a non-blank email gives "Invalid email format" iff it fails the pattern; a blank password gives its error |
| LoginForm.AcceptedEmailIsTrimmed | frontend/src/Login.js:16 | an email the form accepts is non-empty and has no surrounding whitespace |
| LoginForm.Submit | frontend/src/Login.js:25-48 | no request while errors exist; success stores the token and clears the fields; 404/401 show the server's message; anything else gives "Login failed"; the token changes only on success |
| Blogging.Normalize | frontend/src/Blogging.js:189-194 | each post keeps its id and order; `isLiked` iff its id is in the liked set; likes become the array length, the number, or 0; comments default to none |
| Blogging.NormalizeAgreesWithServer | frontend/src/Blogging.js:182-194 | for posts fetched from the server, the count is the number of likers and `isLiked` holds iff the reader is a liker |
| Blogging.LikeUpdate | frontend/src/Blogging.js:235-243 | only the liked post changes: the count becomes max(likes-1, 0) or likes+1, and `isLiked` flips |
| Blogging.LikeThenUnlike | frontend/src/Blogging.js:235-243 | liking then unliking a post that was not liked restores the list |
| Blogging.CountTracksServer | frontend/src/Blogging.js:239 | while the page agrees with the server, the new count equals the server's new number of likers for both routes |
| Blogging.Toggled | frontend/src/Blogging.js:246-251 | the id is in the copy iff it was not in the original; other ids are unchanged |
| Blogging.DropCommentMembers | frontend/src/Blogging.js:367 | the filter keeps exactly the comments whose id differs |
| Blogging.DropMatchesPull | frontend/src/Blogging.js:365-369 | the local removal leaves the same comments as the server's `$pull` |
| Blogging.DropCommentIn | frontend/src/Blogging.js:365-369 | only the post with that id loses the comments with that id |
| Blogging.AppendCommentIn | frontend/src/Blogging.js:336-340 | only the commented post gains the echoed comment, at the end |
| Blogging.QueryStringRoundTrip | frontend/src/Blogging.js:162-171 | after the fragment is dropped and `+` decoded, the server reads back the category and username filters that were set, each `+` as a space, and none that were not |
| Blogging.PlusReadAsSpace | frontend/src/Blogging.js:166 | a username filter `john+doe`, sent unencoded, reaches the server as `john doe` |
| Blogging.BloggingPage.Displayed | frontend/src/Blogging.js:219 | search results while a search term is set, the fetched posts otherwise |
| Blogging.BloggingPage.FetchUrl | frontend/src/Blogging.js:159-171 | the URL is the list endpoint plus the category-then-username query string, with `?` only when a filter is set |
| Blogging.BloggingPage.HandleLike | frontend/src/Blogging.js:223-256 | the unlike route iff the post is in the liked set; on success the posts get the like update and the liked set the toggle; a failure changes nothing |
| Blogging.BloggingPage.HandleComment | frontend/src/Blogging.js:321-348 | a request is sent iff the trimmed text is non-empty; on success the echoed comment is appended and the box cleared |
| Blogging.BloggingPage.CommentPosted | frontend/src/Blogging.js:335-346 | on a successful reply only the commented post gains the echoed comment and the box is cleared; a failed request changes nothing |
| Blogging.BloggingPage.HandleDeleteComment | frontend/src/Blogging.js:350-395 | once confirmed, the comments whose `_id` equals the one sent (`undefined` for a comment the page appended) leave the local list whether the request succeeded or failed; unconfirmed, nothing changes |
| Blogging.DropUndefined | frontend/src/Blogging.js:380-384 | deleting a comment the page appended (id `undefined`, which the server refuses with 400) drops every such comment of that post locally, and only those |
| BlogFormPage.Loaded | frontend/src/BlogForm.js:35-41 | the form shows the fetched fields and `tags.join(', ')` |
| BlogFormPage.LoadedTagsRoundTrip | frontend/src/BlogForm.js:40 | splitting and trimming the shown tags gives the stored tags back |
| BlogFormPage.EmptyBoxSendsOneEmptyTag | frontend/src/BlogForm.js:85 | an empty tags box is sent as one empty tag |
| BlogFormPage.SentBody | frontend/src/BlogForm.js:83-86 | the body carries the fields and the tags as an array, which the server's tag check always answers with 500 |
| BlogFormPage.SentBodyCorrected | frontend/src/BlogForm.js:83-86 | the corrected body carries the tags text; the server can then only reject it with 400 |
| BlogFormPage.CorrectedTagsRoundTrip | frontend/src/BlogForm.js:40 | re-sending a loaded form's tags text makes the server parse exactly the stored tags |
| BlogFormPage.BlogForm.constructor | frontend/src/BlogForm.js:30-31 | edit mode iff the route has an id; empty fields |
| BlogFormPage.BlogForm.Load | frontend/src/BlogForm.js:32-41 | the fields become the loaded post's |
| BlogFormPage.BlogForm.HandleSubmit | frontend/src/BlogForm.js:59-115 | without a token nothing is sent; otherwise PUT to the route id in edit mode and POST otherwise; success empties every field; loading ends either way |
| BlogFormPage.BlogForm.HandleSubmitCorrected | frontend/src/BlogForm.js:80-100 | the same submit with the tags sent as text |
| BlogFormPage.PublishAsWritten | frontend/src/BlogForm.js:91-98 | publishing from the form as written gets 500 and stores nothing |
| BlogFormPage.ResubmitCorrected | frontend/src/BlogForm.js:32-41 | loading a post into an edit form and submitting it with the corrected submit sends the post's own fields with its tags as `join(', ')` text |
| BlogFormPage.SaveUnchangedCorrected | frontend/src/BlogForm.js:80-88 | with the corrected submit, saving an unchanged edit form gets 200 and leaves the post as it was |

## Left out

- The MongoDB connection, the driver and `populate`. Collections are in-memory values, and usernames are not substituted for ids on read paths.
- The ObjectId format: ids are abstract. The 500 a malformed id causes through a `CastError` on routes other than comment delete is not modelled; the delete route's own `isValid` check is kept.
- JWT signing and verification, and bcrypt hashing and comparison: the token check is the `Credential` parameter, and the hash is a parameter.
- The login route, password reset mail, password change, the user routes (`/api/user`, `/users`, `DELETE /users/:id`) and the image upload: none of them is part of the post engine.
- The duplicate `GET /api/blogs/:id` and `GET /api/blog/:id` routes: one read is modelled.
- `createdAt` timestamps: they need a clock.
- Concurrency: every handler is a sequence of reads and writes that is not atomic. Handlers are modelled as running one at a time.
- Server.BlogServer.AllBlogs: the search term is a case-insensitive substring, not a regular expression, and case folding is ASCII only.
- Server.BlogServer.Register: assumes all four fields are in the body. An absent username is dropped by mongoose, and `findOne({})` then matches any user; this is not modelled.
- Server.BlogServer.Register: follows the schema server.js declares, which only requires the fields. backend/models/User.js is not the schema the server uses, so its constraints are only proved against the registration form (RegisterForm.ValidateAgreesWithSchema).
- Validators.PasswordPatternIffClasses: proves the converse only for single-line passwords. Validators.PasswordPatternNeedsOneLine shows why.
- Blogging: rendering, toasts, alerts, the share modal, `formatContent`, `highlightSearchTerms`, the emoji picker and the navigation bar. The fetches themselves are outcome parameters.
- Blogging.BloggingPage.FetchUrl: the page does no URL encoding, and none is modelled.
- Blogging.QueryStringRoundTrip: assumes the filters hold no `&`, `#` or `%`. An `&` splits a filter, a `#` ends the URL, and the percent-decoding of `%XX` is not modelled.
- React components with no logic of their own, and those calling an API that does not exist, are not part of this model.

## Findings

| source | as written | input that shows it | evidently intended | confidence | as-written member | corrected member |
|---|---|---|---|---|---|---|
| backend/server.js:331-349 | the comment is `$pull`ed before it is looked up, so the lookup never finds it | any DELETE of a comment by a verified caller on an existing post: the comment is gone, the answer is 404, and a non-author deletes it too | look the comment up, answer 404/403 if it is missing or not the caller's, then remove it and answer 200 | high (not executed) | Server.BlogServer.DeleteComment | Server.BlogServer.DeleteCommentChecked |
| backend/server.js:302-305 | the new comment carries `username`, which the comment schema does not have, and no `author` | POST a comment, then PUT an edit of it as the same user: `comment.author.toString()` throws and the edit answers 500 | store `author: req.user.userId` so that ownership checks can pass | high (not executed) | Server.CommentThenEdit | Server.CommentThenEditAttributed |
| frontend/src/BlogForm.js:85 | the form sends `tags` as an array; the server calls `tagsCsv.split`, which an array does not have | publish any post from this form: the server answers 500 and stores nothing. frontend/src/App.js routes `/create-blog` and `/edit-blog/:id` to CreateBlog.js and EditPost.js, which send the tags as text, so the shipped app does not reach this form | send the tags text, which the server splits and trims itself | high (not executed) | BlogFormPage.PublishAsWritten | BlogFormPage.SaveUnchangedCorrected |
