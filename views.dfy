/** The function views that write to the database: `profile_follow`,
    `profile_unfollow` and `add_comment`. The database is a `Store` whose
    tables are sequences of rows; the follow and comment tables are the ones
    these views change in place. */
module Views {
  import opened Common
  import opened Models
  import opened Http
  import opened FollowRelation

  class Store {
    var users: seq<User>
    var groups: seq<Group>
    var posts: seq<Post>
    var comments: seq<Comment>
    var follows: seq<Follow>

    /** The keys the schema declares unique, and the foreign keys to the
        user table: every account a row refers to is a stored account. Under
        this, comparing accounts as whole records is comparing primary keys. */
    ghost predicate Valid()
      reads this
    {
      && UsersUnique(users) && SlugsUnique(groups) && PostIdsUnique(posts)
      && PostAuthorsStored(users, posts)
      && CommentAuthorsStored(users, comments)
      && FollowAccountsStored(users, follows)
    }

    constructor (users: seq<User>, groups: seq<Group>, posts: seq<Post>)
      requires UsersUnique(users) && SlugsUnique(groups) && PostIdsUnique(posts)
      requires PostAuthorsStored(users, posts)
      ensures Valid()
      ensures this.users == users && this.groups == groups && this.posts == posts
      ensures comments == [] && follows == []
    {
      this.users := users;
      this.groups := groups;
      this.posts := posts;
      comments := [];
      follows := [];
    }

    /** `profile_follow`: behind `login_required`; 404 for an unknown
        username; otherwise stores the pair (viewer, author) unless it is
        already stored or the viewer is the author, and redirects to the
        author's profile. */
    method ProfileFollow(viewer: Viewer, username: string) returns (r: Response<()>)
      requires Valid()
      requires viewer.Authenticated? ==> viewer.user in users
      modifies this`follows
      ensures Valid()
      ensures viewer.Anonymous? ==> r == Redirect(Login) && follows == old(follows)
      ensures viewer.Authenticated? && UserByName(users, username).None? ==>
        r == NotFound && follows == old(follows)
      ensures viewer.Authenticated? && UserByName(users, username).Some? ==>
        && r == Redirect(Profile(username))
        && follows == AfterFollow(old(follows), viewer.user, UserByName(users, username).value)
      ensures viewer.Authenticated? ==>
        forall a :: a in users && a.username == username ==> follows == AfterFollow(old(follows), viewer.user, a)
      ensures RowsClean(old(follows)) ==> RowsClean(follows)
    {
      if viewer.Anonymous? {
        return Redirect(Login);
      }
      var found := UserByName(users, username);
      if found.None? {
        return NotFound;
      }
      var author := found.value;
      forall a | a in users && a.username == username ensures a == author {
        UserByNameFindsTheAccount(users, a);
      }
      var isFollowing := IsFollowing(follows, viewer.user, author);
      if author != viewer.user && !isFollowing {
        follows := follows + [Follow(viewer.user, author)];
      }
      if RowsClean(old(follows)) {
        FollowKeepsRowsClean(old(follows), viewer.user, author);
      }
      return Redirect(Profile(username));
    }

    /** `profile_unfollow`: behind `login_required`; 404 for an unknown
        username; otherwise deletes every row for the pair (viewer, author),
        if there is one, and redirects to the author's profile. */
    method ProfileUnfollow(viewer: Viewer, username: string) returns (r: Response<()>)
      requires Valid()
      requires viewer.Authenticated? ==> viewer.user in users
      modifies this`follows
      ensures Valid()
      ensures viewer.Anonymous? ==> r == Redirect(Login) && follows == old(follows)
      ensures viewer.Authenticated? && UserByName(users, username).None? ==>
        r == NotFound && follows == old(follows)
      ensures viewer.Authenticated? && UserByName(users, username).Some? ==>
        && r == Redirect(Profile(username))
        && follows == AfterUnfollow(old(follows), viewer.user, UserByName(users, username).value)
      ensures viewer.Authenticated? ==>
        forall a :: a in users && a.username == username ==> follows == AfterUnfollow(old(follows), viewer.user, a)
      ensures RowsClean(old(follows)) ==> RowsClean(follows)
    {
      if viewer.Anonymous? {
        return Redirect(Login);
      }
      var found := UserByName(users, username);
      if found.None? {
        return NotFound;
      }
      var author := found.value;
      forall a | a in users && a.username == username ensures a == author {
        UserByNameFindsTheAccount(users, a);
      }
      if IsFollowing(follows, viewer.user, author) {
        follows := AfterUnfollow(follows, viewer.user, author);
      } else {
        UnfollowAbsentIsNoop(follows, viewer.user, author);
      }
      if RowsClean(old(follows)) {
        UnfollowKeepsRowsClean(old(follows), viewer.user, author);
      }
      return Redirect(Profile(username));
    }

    /** `add_comment`: behind `login_required`. `form` is the cleaned text of
        a valid comment form, or None when the form is not valid. A valid
        form on an existing post (looked up by id and author username)
        stores one comment by the viewer at time `now`; an unknown post is a
        404; in every other case the client is sent back to the post page. */
    method AddComment(viewer: Viewer, username: string, postId: nat, form: Option<string>, now: int)
      returns (r: Response<()>)
      requires Valid()
      requires viewer.Authenticated? ==> viewer.user in users
      modifies this`comments
      ensures Valid()
      ensures viewer.Anonymous? ==> r == Redirect(Login) && comments == old(comments)
      ensures viewer.Authenticated? && form.None? ==>
        r == Redirect(PostPage(username, postId)) && comments == old(comments)
      ensures viewer.Authenticated? && form.Some? && PostByAuthor(posts, username, postId).None? ==>
        r == NotFound && comments == old(comments)
      ensures viewer.Authenticated? && form.Some? && PostByAuthor(posts, username, postId).Some? ==>
        && r == Redirect(PostPage(username, postId))
        && comments == old(comments) + [Comment(postId, viewer.user, form.value, now)]
    {
      if viewer.Anonymous? {
        return Redirect(Login);
      }
      if form.Some? {
        var post := PostByAuthor(posts, username, postId);
        if post.None? {
          return NotFound;
        }
        comments := comments + [Comment(post.value.id, viewer.user, form.value, now)];
      }
      return Redirect(PostPage(username, postId));
    }
  }

  /** The follow view test: TestUser follows TestUserFollower, asks again,
      tries to follow themself and an unknown account. */
  method FollowScenario()
  {
    var reader := User(1, "TestUser");
    var writer := User(2, "TestUserFollower");
    var post := Post(1, "A post to follow", 10, None, writer);
    var store := new Store([reader, writer], [], [post]);
    assert reader in store.users;
    assert UserByName(store.users, "TestUserFollower") == Some(writer);
    assert UserByName(store.users, "TestUser") == Some(reader);
    assert UserByName(store.users, "Nobody") == None;

    var r := store.ProfileFollow(Authenticated(reader), "TestUserFollower");
    assert r == Redirect(Profile("TestUserFollower"));
    assert store.follows == [Follow(reader, writer)];

    r := store.ProfileFollow(Authenticated(reader), "TestUserFollower");
    assert store.follows == [Follow(reader, writer)];

    r := store.ProfileFollow(Authenticated(reader), "TestUser");
    assert store.follows == [Follow(reader, writer)];

    r := store.ProfileFollow(Authenticated(reader), "Nobody");
    assert r == NotFound;
  }

  /** The unfollow view test: TestUser follows TestUserFollower, then
      unfollows, and the pair is gone. */
  method UnfollowScenario()
  {
    var reader := User(1, "TestUser");
    var writer := User(2, "TestUserFollower");
    var store := new Store([reader, writer], [], []);
    assert reader in store.users;
    assert UserByName(store.users, "TestUserFollower") == Some(writer);

    var r := store.ProfileFollow(Authenticated(reader), "TestUserFollower");
    assert store.follows == [Follow(reader, writer)];

    r := store.ProfileUnfollow(Authenticated(reader), "TestUserFollower");
    assert r == Redirect(Profile("TestUserFollower"));
    assert !IsFollowing(store.follows, reader, writer);
  }

  /** A comment stored by `add_comment` is listed under its own post once
      more than before. */
  lemma AddedCommentIsListed(comments: seq<Comment>, c: Comment)
    ensures c in CommentsOf(comments + [c], c.post)
    ensures multiset(CommentsOf(comments + [c], c.post)) == multiset(CommentsOf(comments, c.post)) + multiset{c}
  {
    var before := CommentsOf(comments, c.post);
    var after := CommentsOf(comments + [c], c.post);
    var grown := multiset(comments + [c]);
    assert grown == multiset(comments) + multiset{c};
    forall d ensures multiset(after)[d] == (multiset(before) + multiset{c})[d] {
      if d.post == c.post {
        assert multiset(after)[d] == grown[d];
        assert multiset(before)[d] == multiset(comments)[d];
      } else {
        assert multiset(after)[d] == 0 && multiset(before)[d] == 0 && d != c;
      }
    }
  }

  /** Adding a comment leaves the comment list of every other post as it was. */
  lemma AddedCommentLeavesOtherPosts(comments: seq<Comment>, c: Comment, postId: nat)
    requires postId != c.post
    ensures CommentsOf(comments + [c], postId) == CommentsOf(comments, postId)
  {
    var onPost := (d: Comment) => d.post == postId;
    FilterAppend(comments, c, onPost);
    assert Filter(comments + [c], onPost) == Filter(comments, onPost);
  }
}
