# yatube: follows, feeds and access rules in Dafny

Yatube is a small blogging site. Users write posts and may file them under a
group. They comment on posts and follow other authors. This project models
the site's own decision logic, with the database taken as in-memory tables:

- `Views.Store` holds the tables as sequences of rows. Its methods
  `ProfileFollow`, `ProfileUnfollow` and `AddComment` model the three
  function views that write to the database. The post create and update
  views also write. They are the repository's subclasses of Django's
  generic views, and they are not modelled. Their contracts give the exact new follow or
  comment table and the response.
- `FollowRelation` is the follow table as a state machine. `AfterFollow`
  and `AfterUnfollow` define the two transitions as functions on rows. The
  lemmas about them cover idempotence, the clean-table invariant (no
  duplicate pair, no self-follow), unfollow undoing follow, and the
  `user_is_follower` flag.
- `Feed` models `PostsListView`. `SelectPosts` is the `get_queryset`
  dispatch: group slug, then username, then the follow path, then
  everything. The follow path is a join with the follow table, so a post
  is listed once per matching follow row. `PostsList` adds the login gate and the `get_context_data`
  lookups with their 404s. The lemmas show that every page is newest first,
  and that following and unfollowing change the follow feed as expected.
- `Decorators` holds `author_required` and `login_required_for_page` as
  call-through-or-redirect decisions.
- `Models` holds the records, the `__str__` rules, the `Meta.ordering`
  orders, the unique group slug and the row lookups the views make.
- `Common` holds order-preserving filtering, first-match lookup and an
  insertion sort. `Http` holds viewer, URL and response types.

Conventions of the model:

- An absent `slug` or `username` URL parameter is the empty string. Both
  are false where the views test them.
- Timestamps (`pub_date`, `created`) are opaque integers. The clock value
  of a new comment is a parameter, `now`.
- Accounts are `User(id, username)` records compared as whole values. Ids
  and usernames are unique in the user table. Every account a row refers to
  (a post's author, a comment's author, both sides of a follow row) is a
  stored account, and so is a request's user. `Store.Valid()` states this.
  So this comparison agrees with the primary-key comparison the ORM makes.
- An account is displayed by its username. That rule comes from Django's
  user model, not from this repository, and `FollowStr` uses it.
- Comment-form validation belongs to Django. `AddComment` receives the
  cleaned text of a valid form, or `None` for a form that is not valid.
- The follow table has no uniqueness constraint. `profile_follow` checks
  for the pair and then creates it in two separate queries. Two overlapping
  requests for the same pair can therefore both store it. The rows are a
  sequence that may repeat a pair, and `RowsClean` names the tables that do
  not. On a repeated pair the follow feed lists each of that author's posts
  once per row (`Feed.RepeatedFollowRowRepeatsPost`).
- Django's own `login_required` wraps `profile_follow`,
  `profile_unfollow` and `add_comment`. It is modelled inline as "an
  anonymous viewer is redirected to the login page".

`Views.FollowScenario` and `Views.UnfollowScenario` are worked examples,
with no contract of their own. They follow the follow and unfollow view
tests (yatube/posts/tests/test_views.py:185-224) through the `Store`
methods. The follow example adds a repeated follow, a self-follow and an
unknown username.

## Model

| member | source | states |
|---|---|---|
| `Models.GroupStr` | yatube/posts/models.py:28-30 | a group is displayed as its title, unchanged |
| `Models.PostStr` | yatube/posts/models.py:58-60 | the post string is a prefix of the text, has length min(15, length of text), and is the whole text when the text has at most 15 characters |
| `Models.CommentStr` | yatube/posts/models.py:86-88 | the same three facts for a comment's text |
| `Models.FollowStr` | yatube/posts/models.py:102-104 | the follow string is the follower's username, then " - ", then the author's username, with the length being the sum of the three |
| `Models.FollowStrInjective` | yatube/posts/models.py:102-104 | for usernames without spaces, two follow rows with the same string have the same follower and author usernames |
| `Models.OrderedPosts` | yatube/posts/models.py:54-56 | the post listing is ordered by non-increasing pub_date and is a permutation of the post table |
| `Models.CommentsOf` | yatube/posts/models.py:68-84 | a post's comments are exactly the stored comments with that post id, each as many times as it is stored, ordered by non-increasing created time |
| `Models.GroupBySlugFindsTheGroup` | yatube/posts/models.py:16-19 | with unique slugs, looking up a group's slug returns that same group |
| `Models.GroupBySlug` | yatube/posts/views.py:87-89 | the lookup returns a stored group with the slug, and returns None exactly when no group has it |
| `Models.UserByName` | yatube/posts/views.py:95-98 | the lookup returns a stored account with the username, and returns None exactly when there is none |
| `Models.UserByNameFindsTheAccount` | yatube/posts/views.py:226 | with unique usernames, looking up a stored account's username returns that same account |
| `Models.PostByAuthor` | yatube/posts/views.py:212-214 | the lookup returns a stored post with that id and author username, and returns None exactly when there is none |
| `Decorators.AuthorRequired` | yatube/common_lib/decorators.py:8-20 | the view is called exactly when the user authored a post with that id; otherwise the redirect goes to the post page for (username, post_id) |
| `Decorators.AuthorRequiredIgnoresUsername` | yatube/common_lib/decorators.py:15-19 | whether the view is called does not depend on the username argument |
| `Decorators.LoginRequiredForPage` | yatube/common_lib/decorators.py:23-39 | given a protected list, the view is called exactly when the path is unprotected or the viewer is authenticated; otherwise the redirect goes to login |
| `FollowRelation.IsFollowing` | yatube/posts/views.py:228 | the pair counts as followed exactly when some row has that follower and that author |
| `FollowRelation.AfterFollow` | yatube/posts/views.py:228-231 | following another account makes the pair stored. Following oneself changes nothing. The rows afterwards are the old rows plus at most that pair, with the old rows as a prefix. The table grows by one row exactly when the pair was new and the accounts differ |
| `FollowRelation.AfterUnfollow` | yatube/posts/views.py:239-242 | afterwards the pair is not stored. Every other row is kept as many times as it was stored, and nothing is added |
| `FollowRelation.FollowIdempotent` | yatube/posts/views.py:228-231 | following twice leaves the same rows as following once |
| `FollowRelation.FollowKeepsRowsClean` | yatube/posts/views.py:228-231 | following preserves "no duplicate pair and no self-follow" |
| `FollowRelation.UnfollowAbsentIsNoop` | yatube/posts/views.py:239-242 | unfollowing a pair that is not stored leaves the rows unchanged |
| `FollowRelation.UnfollowKeepsRowsClean` | yatube/posts/views.py:239-242 | unfollowing preserves "no duplicate pair and no self-follow" |
| `FollowRelation.UnfollowUndoesFollow` | yatube/posts/views.py:224-244 | unfollowing right after following a new pair gives back exactly the original rows |
| `FollowRelation.UserIsFollower` | yatube/posts/views.py:101-104 | an anonymous viewer is never a follower. An authenticated viewer is one exactly when some row has the viewer as follower and the author as author |
| `FollowRelation.FollowMakesFollower` | yatube/posts/views.py:101-104 | after following another account, that account's page shows the viewer as a follower |
| `FollowRelation.UnfollowEndsFollower` | yatube/posts/views.py:101-104 | after unfollowing, that account's page no longer shows the viewer as a follower |
| `FollowRelation.AnonymousIsNoFollower` | yatube/posts/views.py:101-104 | an anonymous viewer is never shown as a follower |
| `Feed.SelectPosts` | yatube/posts/views.py:57-74 | a slug selects exactly the posts of that group. Otherwise a username selects exactly that author's posts. Otherwise the follow path selects exactly the posts whose author the viewer follows, each listed once per follow row joining the viewer to its author. Otherwise every post is selected, in order. The first two branches keep each selected post as many times as the table holds it |
| `Feed.FollowJoin` | yatube/posts/views.py:68-71 | the join lists exactly the posts whose author `user` follows |
| `Feed.FollowJoinCount` | yatube/posts/views.py:68-71 | the join lists a post as often as the table holds it times the number of rows joining `user` to its author |
| `Feed.FollowJoinKeepsOrder` | yatube/posts/views.py:68-71 | the join keeps a newest-first post table newest first |
| `Feed.FollowJoinOnDistinctRows` | yatube/posts/views.py:68-71 | when no pair is stored twice, the join equals the order-preserving filter of the followed authors' posts |
| `Feed.SelectPostsKeepsOrder` | yatube/posts/views.py:57-74 | every branch keeps a newest-first post table newest first |
| `Feed.PostsList` | yatube/posts/views.py:20-110 | an anonymous viewer on the follow path is redirected to login, and nothing else is redirected. An unknown slug or an unknown username gives 404. A rendered page lists the selection from the ordered table. A group page carries the stored group with that slug. An author page carries the stored author and a follower flag that is true exactly when the viewer is authenticated and the pair is stored |
| `Feed.PostsListOrdered` | yatube/posts/views.py:32-74 | every rendered page lists its posts by non-increasing pub_date |
| `Feed.GroupPageShowsTheGroup` | yatube/posts/views.py:86-90 | with unique slugs, a group's page renders that very group and lists exactly that group's posts |
| `Feed.FollowFeed` | yatube/posts/views.py:67-71 | the follow feed of an account holds exactly the posts whose author that account follows, each as often as it is stored times the number of rows for the pair |
| `Feed.FollowFeedOnCleanRows` | yatube/posts/views.py:67-71 | on a clean follow table the feed is the followed authors' posts, each once per stored copy, in table order |
| `Feed.RepeatedFollowRowRepeatsPost` | yatube/posts/views.py:68-71 | a pair stored twice lists the author's post twice in the feed |
| `Feed.FollowShowsAuthorInFeed` | yatube/posts/views.py:67-71 | after following another account, all of its posts are in the follow feed |
| `Feed.UnfollowHidesAuthorFromFeed` | yatube/posts/views.py:67-71 | after unfollowing an account, none of its posts is in the follow feed |
| `Feed.FollowLeavesOtherAuthors` | yatube/posts/views.py:67-71 | following or unfollowing one account does not change how often a post by any other account is listed in the feed |
| `Views.Store.ProfileFollow` | yatube/posts/views.py:224-233 | an anonymous viewer goes to login and an unknown username gives 404, both with no change. Otherwise the follow rows become AfterFollow of the old rows for the one stored account named `username`, the response redirects to that profile, and a clean table stays clean |
| `Views.Store.ProfileUnfollow` | yatube/posts/views.py:236-244 | an anonymous viewer goes to login and an unknown username gives 404, both with no change. Otherwise the follow rows become AfterUnfollow of the old rows for the one stored account named `username`, the response redirects to that profile, and a clean table stays clean |
| `Views.Store.AddComment` | yatube/posts/views.py:205-221 | an anonymous viewer goes to login with no change. An invalid form changes nothing and redirects to the post page. A valid form on an unknown post gives 404 with no change. A valid form on an existing post appends exactly one comment, with the viewer as author, that post's id, the form text and `now`, then redirects to the post page |
| `Views.AddedCommentIsListed` | yatube/posts/views.py:216-219 | a stored comment is listed under its own post, whose comment list gains exactly that one comment |
| `Views.AddedCommentLeavesOtherPosts` | yatube/posts/views.py:216-219 | the comment list of every other post is exactly as it was |

## Left out

- Query construction (`select_related`, `prefetch_related`, `Prefetch`, `.only(...)`). These are loading hints with no effect on which rows are returned.
- Pagination (`paginate_by`, the `page_obj` renaming) and the cached index page. Both are Django's paginator and cache framework. A page's posts are the whole selection.
- `PostDetailView`, `PostFormCreateView` and `PostFormUpdateView` (yatube/posts/views.py:112-202). These are the repository's subclasses of Django's generic detail, create and update views. Their overrides are not modelled: the detail queryset and its context with the comment form and `user_is_follower`, the assignment of the requesting user as author on create with its redirect to the index, and the author-restricted edit queryset with its redirect to the post page. Only `author_required`, which guards the update view, is modelled.
- `page_not_found` and `server_error` only render error templates.
- Forms, admin, URL routing, sign-up, the auth backend, the template loader and template tags, and the about pages.
- Image uploads and media storage.
- Django's `login_required`: its redirect carries a `next` query parameter that `Url.Login` does not model.
- Validation of the comment form (required text, whitespace stripping) belongs to Django. It arrives as the `form` parameter of `AddComment`.
- Feed.SelectPosts: for an anonymous viewer on the follow path it selects no posts. The source would run the query with an anonymous user, which does not work. This case is unreachable because `PostsList` redirects it to login first.
- Decorators.AuthorRequired: takes a stored account. In the source the wrapper always runs inside `login_required`, and an anonymous user there has no posts to query.
- Decorators.LoginRequiredForPage: requires the protected list to be given. Its default `None` makes the membership test fail in the source.
- Models.FollowStrInjective: assumes usernames hold no space. Django's username validator guarantees this, and that validator is not part of this model.
- The interleaving of concurrent requests. Each `Store` method runs as one step. The repeated pair that overlapping follow requests can leave behind is allowed in the rows, and its effect on the feed is stated.
- Comment and follow rows have no primary keys of their own. Nothing in the modelled views reads them.
