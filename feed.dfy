/** `PostsListView`: one list view serves the index page, the follow feed,
    group pages and author pages. Which posts it lists and what else its
    page shows depend only on the URL parameters, the path and the viewer. */
module Feed {
  import opened Common
  import opened Models
  import opened Http
  import opened Decorators
  import opened FollowRelation

  /** The URL parameters of a list request; an absent `slug` or `username`
      is the empty string (both are false in the view's tests). */
  datatype ListRequest = ListRequest(path: string, slug: string, username: string, viewer: Viewer)

  /** The page context beside the listed posts: the group of a group page,
      the author and the follower flag of an author page. */
  datatype ListContext =
    | IndexContext(posts: seq<Post>)
    | GroupContext(posts: seq<Post>, group: Group)
    | ProfileContext(posts: seq<Post>, author: User, userIsFollower: bool)

  /** `k` copies of `p`. */
  function Copies(p: Post, k: nat): (r: seq<Post>)
    ensures |r| == k
    ensures forall i :: 0 <= i < |r| ==> r[i] == p
    ensures forall q :: multiset(r)[q] == if q == p then k else 0
    decreases k
  {
    if k == 0 then [] else [p] + Copies(p, k - 1)
  }

  /** How many follow rows join `user` as follower to `author`. */
  function RowCount(rows: seq<Follow>, user: User, author: User): nat
  {
    multiset(rows)[Follow(user, author)]
  }

  /** `filter(author__following__user=user)`: an inner join of the post
      table with the follow table. A post is listed once for every follow
      row that joins `user` to its author (no DISTINCT is asked for), and
      the posts keep the order of the table. */
  function FollowJoin(posts: seq<Post>, rows: seq<Follow>, user: User): (r: seq<Post>)
    ensures forall p :: p in r <==> p in posts && IsFollowing(rows, user, p.author)
    decreases |posts|
  {
    if posts == [] then []
    else
      Copies(posts[0], RowCount(rows, user, posts[0].author)) + FollowJoin(posts[1..], rows, user)
  }

  /** The join lists a post as often as the post table holds it times the
      number of follow rows that join `user` to its author. */
  lemma {:induction false} FollowJoinCount(posts: seq<Post>, rows: seq<Follow>, user: User, p: Post)
    ensures multiset(FollowJoin(posts, rows, user))[p] == multiset(posts)[p] * RowCount(rows, user, p.author)
    decreases |posts|
  {
    if posts != [] {
      var k := RowCount(rows, user, p.author);
      var a := if p == posts[0] then 1 else 0;
      var b := multiset(posts[1..])[p];
      assert posts == [posts[0]] + posts[1..];
      assert multiset(posts)[p] == a + b;
      FollowJoinCount(posts[1..], rows, user, p);
      calc {
        multiset(FollowJoin(posts, rows, user))[p];
        multiset(Copies(posts[0], RowCount(rows, user, posts[0].author)))[p] + multiset(FollowJoin(posts[1..], rows, user))[p];
        a * k + b * k;
        { assert a * k + b * k == (a + b) * k; }
        (a + b) * k;
      }
    }
  }

  /** The join keeps a newest-first table newest first. */
  lemma {:induction false} FollowJoinKeepsOrder(posts: seq<Post>, rows: seq<Follow>, user: User)
    requires PostsOrdered(posts)
    ensures PostsOrdered(FollowJoin(posts, rows, user))
    decreases |posts|
  {
    if posts != [] {
      var head := Copies(posts[0], RowCount(rows, user, posts[0].author));
      var rest := FollowJoin(posts[1..], rows, user);
      FollowJoinKeepsOrder(posts[1..], rows, user);
      assert forall j :: 0 <= j < |rest| ==> rest[j] in posts[1..];
      assert forall j :: 0 <= j < |rest| ==> PubDate(rest[j]) <= PubDate(posts[0]);
      var r := head + rest;
      forall i, j | 0 <= i < j < |r| ensures PubDate(r[i]) >= PubDate(r[j]) {
        if j < |head| {
          assert r[i] == posts[0] && r[j] == posts[0];
        } else if i < |head| {
          assert r[i] == posts[0] && r[j] == rest[j - |head|];
        } else {
          assert r[i] == rest[i - |head|] && r[j] == rest[j - |head|];
        }
      }
    }
  }

  /** On a table without repeated pairs the join lists each followed post
      exactly as often as the post table holds it: it is a plain filter. */
  lemma {:induction false} FollowJoinOnDistinctRows(posts: seq<Post>, rows: seq<Follow>, user: User)
    requires Distinct(rows)
    ensures FollowJoin(posts, rows, user) == Filter(posts, (p: Post) => IsFollowing(rows, user, p.author))
    decreases |posts|
  {
    if posts != [] {
      DistinctOccursOnce(rows, Follow(user, posts[0].author));
      FollowJoinOnDistinctRows(posts[1..], rows, user);
    }
  }

  /** `get_queryset`: a slug selects that group's posts; otherwise a username
      selects that author's posts; otherwise the follow path selects, through
      the join, the posts of the accounts the viewer follows; otherwise every
      post. */
  function SelectPosts(posts: seq<Post>, follows: seq<Follow>, req: ListRequest): (r: seq<Post>)
    ensures req.slug != [] ==>
      && (forall p :: p in r <==> p in posts && p.group == Some(req.slug))
      && (forall p :: multiset(r)[p] == if p.group == Some(req.slug) then multiset(posts)[p] else 0)
    ensures req.slug == [] && req.username != [] ==>
      && (forall p :: p in r <==> p in posts && p.author.username == req.username)
      && (forall p :: multiset(r)[p] == if p.author.username == req.username then multiset(posts)[p] else 0)
    ensures req.slug == [] && req.username == [] && req.path == FollowIndexPath ==>
      && (forall p :: p in r <==> p in posts && UserIsFollower(follows, req.viewer, p.author))
      && (forall p :: multiset(r)[p] ==
            if req.viewer.Authenticated? then multiset(posts)[p] * RowCount(follows, req.viewer.user, p.author)
            else 0)
    ensures req.slug == [] && req.username == [] && req.path != FollowIndexPath ==> r == posts
  {
    if req.slug != [] then
      Filter(posts, (p: Post) => p.group == Some(req.slug))
    else if req.username != [] then
      Filter(posts, (p: Post) => p.author.username == req.username)
    else if req.path == FollowIndexPath then
      if req.viewer.Authenticated? then
        var user := req.viewer.user;
        assert forall p :: multiset(FollowJoin(posts, follows, user))[p] == multiset(posts)[p] * RowCount(follows, user, p.author) by {
          forall p ensures multiset(FollowJoin(posts, follows, user))[p] == multiset(posts)[p] * RowCount(follows, user, p.author) {
            FollowJoinCount(posts, follows, user, p);
          }
        }
        FollowJoin(posts, follows, user)
      else []
    else
      posts
  }

  /** Every branch keeps the table's newest-first order. */
  lemma SelectPostsKeepsOrder(posts: seq<Post>, follows: seq<Follow>, req: ListRequest)
    requires PostsOrdered(posts)
    ensures PostsOrdered(SelectPosts(posts, follows, req))
  {
    if req.slug != [] {
      FilterKeepsOrder(posts, (p: Post) => p.group == Some(req.slug), PubDate);
    } else if req.username != [] {
      FilterKeepsOrder(posts, (p: Post) => p.author.username == req.username, PubDate);
    } else if req.path == FollowIndexPath && req.viewer.Authenticated? {
      FollowJoinKeepsOrder(posts, follows, req.viewer.user);
    }
  }

  /** The paths that need a logged-in viewer. */
  const ProtectedPaths: Option<seq<string>> := Some([FollowIndexPath])

  /** The whole list view: the login gate on the follow feed, then
      `get_queryset` on the ordered post table, then `get_context_data`,
      which answers 404 for an unknown group or author. */
  function PostsList(users: seq<User>, groups: seq<Group>, posts: seq<Post>, follows: seq<Follow>,
                     req: ListRequest): (r: Response<ListContext>)
    ensures r.Redirect? <==> req.path == FollowIndexPath && req.viewer.Anonymous?
    ensures r.Redirect? ==> r.to == Login
    ensures r.NotFound? <==> (
      && !r.Redirect?
      && ((req.slug != [] && forall g :: g in groups ==> g.slug != req.slug) ||
          (req.slug == [] && req.username != [] && forall u :: u in users ==> u.username != req.username)))
    ensures r.Render? ==> r.context.posts == SelectPosts(OrderedPosts(posts), follows, req)
    ensures r.Render? && req.slug != [] ==>
      r.context.GroupContext? && r.context.group in groups && r.context.group.slug == req.slug
    ensures r.Render? && req.slug == [] && req.username != [] ==>
      && r.context.ProfileContext?
      && r.context.author in users
      && r.context.author.username == req.username
      && (r.context.userIsFollower <==>
            req.viewer.Authenticated? && Follow(req.viewer.user, r.context.author) in follows)
    ensures r.Render? && req.slug == [] && req.username == [] ==> r.context.IndexContext?
  {
    match LoginRequiredForPage(ProtectedPaths, req.path, req.viewer)
    case RedirectTo(target) => Redirect(target)
    case CallThrough =>
      var listed := SelectPosts(OrderedPosts(posts), follows, req);
      if req.slug != [] then
        match GroupBySlug(groups, req.slug)
        case None => NotFound
        case Some(group) => Render(GroupContext(listed, group))
      else if req.username != [] then
        match UserByName(users, req.username)
        case None => NotFound
        case Some(author) => Render(ProfileContext(listed, author, UserIsFollower(follows, req.viewer, author)))
      else
        Render(IndexContext(listed))
  }

  /** Every page of the list view lists its posts newest first. */
  lemma PostsListOrdered(users: seq<User>, groups: seq<Group>, posts: seq<Post>, follows: seq<Follow>,
                         req: ListRequest)
    requires PostsList(users, groups, posts, follows, req).Render?
    ensures PostsOrdered(PostsList(users, groups, posts, follows, req).context.posts)
  {
    SelectPostsKeepsOrder(OrderedPosts(posts), follows, req);
  }

  /** A group page shows the one group that owns the slug, and lists exactly
      the posts of that group. */
  lemma GroupPageShowsTheGroup(users: seq<User>, groups: seq<Group>, posts: seq<Post>, follows: seq<Follow>,
                               g: Group, viewer: Viewer)
    requires SlugsUnique(groups)
    requires g in groups && g.slug != []
    ensures var r := PostsList(users, groups, posts, follows, ListRequest("/group/" + g.slug + "/", g.slug, [], viewer));
      && r == Render(GroupContext(r.context.posts, g))
      && forall p :: p in r.context.posts <==> p in posts && p.group == Some(g.slug)
  {
    GroupBySlugFindsTheGroup(groups, g);
    var posted := OrderedPosts(posts);
    assert forall p :: p in posted <==> p in multiset(posts);
  }

  /** The follow feed of `user`, as requested by an authenticated viewer. */
  function FollowFeed(posts: seq<Post>, follows: seq<Follow>, user: User): (r: seq<Post>)
    ensures forall p :: p in r <==> p in posts && IsFollowing(follows, user, p.author)
    ensures forall p :: multiset(r)[p] == multiset(posts)[p] * RowCount(follows, user, p.author)
  {
    SelectPosts(posts, follows, ListRequest(FollowIndexPath, [], [], Authenticated(user)))
  }

  /** When no pair is stored twice, the follow feed holds each post of a
      followed author exactly as often as the post table does, and nothing else. */
  lemma FollowFeedOnCleanRows(posts: seq<Post>, follows: seq<Follow>, user: User)
    requires RowsClean(follows)
    ensures FollowFeed(posts, follows, user) == Filter(posts, (p: Post) => IsFollowing(follows, user, p.author))
  {
    FollowJoinOnDistinctRows(posts, follows, user);
  }

  /** A pair stored twice (two overlapping follow requests) lists each post
      of that author twice in the follow feed. */
  lemma RepeatedFollowRowRepeatsPost(user: User, author: User, p: Post)
    requires p.author == author
    ensures FollowFeed([p], [Follow(user, author), Follow(user, author)], user) == [p, p]
  {
    var rows := [Follow(user, author), Follow(user, author)];
    assert multiset(rows)[Follow(user, author)] == 2;
    assert Copies(p, 2) == [p, p];
    assert [p][1..] == [];
    assert FollowJoin([p], rows, user) == Copies(p, 2) + FollowJoin([], rows, user);
    assert SelectPosts([p], rows, ListRequest(FollowIndexPath, [], [], Authenticated(user))) == FollowJoin([p], rows, user);
  }

  /** After following another account, every post of that account is in the follow feed. */
  lemma FollowShowsAuthorInFeed(posts: seq<Post>, follows: seq<Follow>, user: User, author: User, p: Post)
    requires user != author
    requires p in posts && p.author == author
    ensures p in FollowFeed(posts, AfterFollow(follows, user, author), user)
  {
  }

  /** After unfollowing an account, none of its posts is in the follow feed. */
  lemma UnfollowHidesAuthorFromFeed(posts: seq<Post>, follows: seq<Follow>, user: User, author: User, p: Post)
    requires p.author == author
    ensures p !in FollowFeed(posts, AfterUnfollow(follows, user, author), user)
  {
  }

  /** Following or unfollowing one account does not change how often a post
      by any other account is listed in the follow feed. */
  lemma FollowLeavesOtherAuthors(posts: seq<Post>, follows: seq<Follow>, user: User, author: User, p: Post)
    requires p.author != author
    ensures multiset(FollowFeed(posts, AfterFollow(follows, user, author), user))[p]
        == multiset(FollowFeed(posts, follows, user))[p]
    ensures multiset(FollowFeed(posts, AfterUnfollow(follows, user, author), user))[p]
        == multiset(FollowFeed(posts, follows, user))[p]
  {
    assert RowCount(AfterFollow(follows, user, author), user, p.author) == RowCount(follows, user, p.author);
    assert RowCount(AfterUnfollow(follows, user, author), user, p.author) == RowCount(follows, user, p.author);
  }
}
