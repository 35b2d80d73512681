/** The records of the `posts` application (groups, posts, comments and
    follow rows), their display strings, the order in which listings present
    them, and the keys that identify a row. */
module Models {
  import opened Common

  /** An account as the views see it: primary key and username. Accounts
      are compared as whole records; since both fields are unique in the
      user table, this is the primary-key comparison the ORM makes. */
  datatype User = User(id: nat, username: string)

  /** A group that posts may belong to; `slug` names its page. */
  datatype Group = Group(title: string, slug: string, description: string)

  /** A post. `group` is the slug of the group the post belongs to, if any
      (slugs are unique, so a slug identifies its group); `pubDate` stands
      for the creation timestamp, compared as an opaque ordered value. */
  datatype Post = Post(id: nat, text: string, pubDate: int, group: Option<string>, author: User)

  /** A comment on the post whose id is `post`. */
  datatype Comment = Comment(post: nat, author: User, text: string, created: int)

  /** One row of the follow table: `user` follows `author`. */
  datatype Follow = Follow(user: User, author: User)

  /** How many characters of a text the post and comment strings show. */
  const PreviewLength: nat := 15

  /** The first `PreviewLength` characters of `text` (Python's `text[:15]`). */
  function Preview(text: string): (r: string)
    ensures r <= text
    ensures |r| == if |text| < PreviewLength then |text| else PreviewLength
    ensures |text| <= PreviewLength ==> r == text
  {
    if |text| <= PreviewLength then text else text[..PreviewLength]
  }

  /** `Group.__str__`: a group is displayed by its title. */
  function GroupStr(g: Group): (r: string)
    ensures r == g.title
  {
    g.title
  }

  /** `Post.__str__`: the start of the post's text. */
  function PostStr(p: Post): (r: string)
    ensures r <= p.text
    ensures |r| == if |p.text| < PreviewLength then |p.text| else PreviewLength
    ensures |p.text| <= PreviewLength ==> r == p.text
  {
    Preview(p.text)
  }

  /** `Comment.__str__`: the start of the comment's text. */
  function CommentStr(c: Comment): (r: string)
    ensures r <= c.text
    ensures |r| == if |c.text| < PreviewLength then |c.text| else PreviewLength
    ensures |c.text| <= PreviewLength ==> r == c.text
  {
    Preview(c.text)
  }

  const FollowSeparator: string := " - "

  /** `Follow.__str__`: "<follower> - <author>", each account shown by its
      username. */
  function FollowStr(f: Follow): (r: string)
    ensures |r| == |f.user.username| + |FollowSeparator| + |f.author.username|
    ensures r[..|f.user.username|] == f.user.username
    ensures r[|f.user.username|..|f.user.username| + |FollowSeparator|] == FollowSeparator
    ensures r[|f.user.username| + |FollowSeparator|..] == f.author.username
  {
    f.user.username + FollowSeparator + f.author.username
  }

  /** Usernames are made of letters, digits and `@.+-_`; in particular they
      hold no space. */
  ghost predicate NoSpace(s: string)
  {
    forall i :: 0 <= i < |s| ==> s[i] != ' '
  }

  /** The part of `s` before its first space. */
  function BeforeSpace(s: string): (r: string)
    ensures r <= s
    ensures NoSpace(r)
    decreases |s|
  {
    if s == [] || s[0] == ' ' then [] else [s[0]] + BeforeSpace(s[1..])
  }

  lemma {:induction false} BeforeSpaceOfJoin(u: string, rest: string)
    requires NoSpace(u)
    requires rest != [] && rest[0] == ' '
    ensures BeforeSpace(u + rest) == u
    decreases |u|
  {
    if u == [] {
      assert u + rest == rest;
    } else {
      assert (u + rest)[1..] == u[1..] + rest;
      BeforeSpaceOfJoin(u[1..], rest);
    }
  }

  /** The follow string determines the pair: two follow rows with the same
      string have the same follower and the same author. */
  lemma FollowStrInjective(f: Follow, g: Follow)
    requires NoSpace(f.user.username) && NoSpace(g.user.username)
    requires FollowStr(f) == FollowStr(g)
    ensures f.user.username == g.user.username
    ensures f.author.username == g.author.username
  {
    var s := FollowStr(f);
    assert s == f.user.username + (FollowSeparator + f.author.username);
    assert s == g.user.username + (FollowSeparator + g.author.username);
    BeforeSpaceOfJoin(f.user.username, FollowSeparator + f.author.username);
    BeforeSpaceOfJoin(g.user.username, FollowSeparator + g.author.username);
  }

  function PubDate(p: Post): int { p.pubDate }

  function Created(c: Comment): int { c.created }

  /** `Post.Meta.ordering = ("-pub_date",)`: newest post first. */
  ghost predicate PostsOrdered(posts: seq<Post>)
  {
    NonIncreasing(posts, PubDate)
  }

  /** The post table as listings read it. */
  function OrderedPosts(posts: seq<Post>): (r: seq<Post>)
    ensures PostsOrdered(r)
    ensures multiset(r) == multiset(posts)
  {
    OrderByDesc(posts, PubDate)
  }

  /** `Comment.Meta.ordering = ("-created",)`: newest comment first. */
  ghost predicate CommentsOrdered(comments: seq<Comment>)
  {
    NonIncreasing(comments, Created)
  }

  /** `post.comments`: the comments of the post `postId`, newest first. */
  function CommentsOf(comments: seq<Comment>, postId: nat): (r: seq<Comment>)
    ensures CommentsOrdered(r)
    ensures forall c :: c in r <==> c in comments && c.post == postId
    ensures forall c :: multiset(r)[c] == if c.post == postId then multiset(comments)[c] else 0
  {
    var mine := Filter(comments, (c: Comment) => c.post == postId);
    var r := OrderByDesc(mine, Created);
    assert forall c :: c in r <==> c in multiset(mine);
    r
  }

  /** `Group.slug` is declared unique: no two groups share a slug. */
  ghost predicate SlugsUnique(groups: seq<Group>)
  {
    forall i, j :: 0 <= i < j < |groups| ==> groups[i].slug != groups[j].slug
  }

  /** Account ids and usernames are unique in the user table. */
  ghost predicate UsersUnique(users: seq<User>)
  {
    forall i, j :: 0 <= i < j < |users| ==> users[i].id != users[j].id && users[i].username != users[j].username
  }

  /** Post ids are primary keys. */
  ghost predicate PostIdsUnique(posts: seq<Post>)
  {
    forall i, j :: 0 <= i < j < |posts| ==> posts[i].id != posts[j].id
  }

  /** `Group.objects.get(slug=slug)`, or None when no group has that slug. */
  function GroupBySlug(groups: seq<Group>, slug: string): (r: Option<Group>)
    ensures r.Some? ==> r.value in groups && r.value.slug == slug
    ensures r.None? <==> forall g :: g in groups ==> g.slug != slug
  {
    Find(groups, (g: Group) => g.slug == slug)
  }

  /** With unique slugs, looking a group up by its slug finds that very group. */
  lemma GroupBySlugFindsTheGroup(groups: seq<Group>, g: Group)
    requires SlugsUnique(groups)
    requires g in groups
    ensures GroupBySlug(groups, g.slug) == Some(g)
  {
  }

  /** `User.objects.get(username=username)`, or None when there is no such account. */
  function UserByName(users: seq<User>, username: string): (r: Option<User>)
    ensures r.Some? ==> r.value in users && r.value.username == username
    ensures r.None? <==> forall u :: u in users ==> u.username != username
  {
    Find(users, (u: User) => u.username == username)
  }

  /** With unique usernames, looking an account up by its username finds that very account. */
  lemma UserByNameFindsTheAccount(users: seq<User>, u: User)
    requires UsersUnique(users)
    requires u in users
    ensures UserByName(users, u.username) == Some(u)
  {
  }

  /** Every post is written by a stored account. */
  ghost predicate PostAuthorsStored(users: seq<User>, posts: seq<Post>)
  {
    forall p :: p in posts ==> p.author in users
  }

  /** Every comment is written by a stored account. */
  ghost predicate CommentAuthorsStored(users: seq<User>, comments: seq<Comment>)
  {
    forall c :: c in comments ==> c.author in users
  }

  /** Both accounts of every follow row are stored accounts. */
  ghost predicate FollowAccountsStored(users: seq<User>, rows: seq<Follow>)
  {
    forall f :: f in rows ==> f.user in users && f.author in users
  }

  /** `Post.objects.get(id=postId, author__username=username)`, or None. */
  function PostByAuthor(posts: seq<Post>, username: string, postId: nat): (r: Option<Post>)
    ensures r.Some? ==> r.value in posts && r.value.id == postId && r.value.author.username == username
    ensures r.None? <==> forall p :: p in posts ==> p.id != postId || p.author.username != username
  {
    Find(posts, (p: Post) => p.id == postId && p.author.username == username)
  }
}
