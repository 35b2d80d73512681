/** The follow table as a small state machine: what `profile_follow` and
    `profile_unfollow` do to its rows, and what stays true across them. The
    table itself has no uniqueness constraint. A follow request checks for
    the pair and then inserts it in two separate steps, so it keeps a pair
    from being stored twice only when requests run one at a time; two
    overlapping requests for the same pair can both insert it. Rows are
    therefore a sequence that may hold repeats, and the lemmas below state
    when it does not. */
module FollowRelation {
  import opened Common
  import opened Models
  import opened Http

  /** `author.following.filter(user=user).exists()`: some row joins `user`
      as follower to `author`. */
  function IsFollowing(rows: seq<Follow>, user: User, author: User): (b: bool)
    ensures b <==> exists i :: 0 <= i < |rows| && rows[i].user == user && rows[i].author == author
  {
    Follow(user, author) in rows
  }

  /** The table is clean when no pair is stored twice and nobody follows themself. */
  ghost predicate RowsClean(rows: seq<Follow>)
  {
    Distinct(rows) && forall f :: f in rows ==> f.user != f.author
  }

  /** The rows after `user` asks to follow `author`: a row is added only for
      a new pair of two different accounts. */
  function AfterFollow(rows: seq<Follow>, user: User, author: User): (r: seq<Follow>)
    ensures user != author ==> IsFollowing(r, user, author)
    ensures user == author ==> r == rows
    ensures forall f :: f in r <==> f in rows || (user != author && f == Follow(user, author))
    ensures |r| == |rows| + (if user != author && !IsFollowing(rows, user, author) then 1 else 0)
    ensures r[..|rows|] == rows
  {
    if author != user && !IsFollowing(rows, user, author) then rows + [Follow(user, author)] else rows
  }

  /** The rows after `user` asks to stop following `author`: every row for
      that pair is deleted and all other rows are kept, in order. */
  function AfterUnfollow(rows: seq<Follow>, user: User, author: User): (r: seq<Follow>)
    ensures !IsFollowing(r, user, author)
    ensures forall f :: f in r <==> f in rows && f != Follow(user, author)
    ensures forall f :: multiset(r)[f] == if f == Follow(user, author) then 0 else multiset(rows)[f]
    ensures |r| <= |rows|
  {
    Filter(rows, (f: Follow) => f != Follow(user, author))
  }

  /** Asking to follow twice is the same as asking once. */
  lemma FollowIdempotent(rows: seq<Follow>, user: User, author: User)
    ensures AfterFollow(AfterFollow(rows, user, author), user, author) == AfterFollow(rows, user, author)
  {
  }

  /** Following keeps the table clean: no duplicate pair and no self-follow appear. */
  lemma FollowKeepsRowsClean(rows: seq<Follow>, user: User, author: User)
    requires RowsClean(rows)
    ensures RowsClean(AfterFollow(rows, user, author))
  {
  }

  /** Unfollowing a pair that is not stored changes nothing. */
  lemma UnfollowAbsentIsNoop(rows: seq<Follow>, user: User, author: User)
    requires !IsFollowing(rows, user, author)
    ensures AfterUnfollow(rows, user, author) == rows
  {
    FilterKeepsAll(rows, (f: Follow) => f != Follow(user, author));
  }

  /** Unfollowing keeps the table clean. */
  lemma UnfollowKeepsRowsClean(rows: seq<Follow>, user: User, author: User)
    requires RowsClean(rows)
    ensures RowsClean(AfterUnfollow(rows, user, author))
  {
    FilterKeepsDistinct(rows, (f: Follow) => f != Follow(user, author));
  }

  /** Unfollowing right after a follow that added a row restores the table. */
  lemma UnfollowUndoesFollow(rows: seq<Follow>, user: User, author: User)
    requires !IsFollowing(rows, user, author)
    ensures AfterUnfollow(AfterFollow(rows, user, author), user, author) == rows
  {
    var keep := (f: Follow) => f != Follow(user, author);
    FilterKeepsAll(rows, keep);
    if user != author {
      FilterAppend(rows, Follow(user, author), keep);
    }
  }

  /** The `user_is_follower` flag of an author page: an authenticated
      viewer for whom a follow row to `author` exists. */
  function UserIsFollower(rows: seq<Follow>, viewer: Viewer, author: User): (b: bool)
    ensures viewer.Anonymous? ==> !b
    ensures viewer.Authenticated? ==>
      (b <==> exists i :: 0 <= i < |rows| && rows[i].user == viewer.user && rows[i].author == author)
  {
    viewer.Authenticated? && IsFollowing(rows, viewer.user, author)
  }

  /** After following another account, its page shows the viewer as a follower. */
  lemma FollowMakesFollower(rows: seq<Follow>, user: User, author: User)
    requires user != author
    ensures UserIsFollower(AfterFollow(rows, user, author), Authenticated(user), author)
  {
  }

  /** After unfollowing, the page no longer shows the viewer as a follower. */
  lemma UnfollowEndsFollower(rows: seq<Follow>, user: User, author: User)
    ensures !UserIsFollower(AfterUnfollow(rows, user, author), Authenticated(user), author)
  {
  }

  /** An anonymous viewer is never shown as a follower. */
  lemma AnonymousIsNoFollower(rows: seq<Follow>, author: User)
    ensures !UserIsFollower(rows, Anonymous, author)
  {
  }
}
