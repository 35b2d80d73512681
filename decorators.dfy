/** The two access-control wrappers of the project. Each one decides, from
    the request alone, whether the wrapped view is called or the client is
    redirected; they are modelled by that decision. */
module Decorators {
  import opened Common
  import opened Models
  import opened Http

  /** Call the wrapped view, or answer with a redirect instead. */
  datatype Gate = CallThrough | RedirectTo(target: Url)

  /** `author_required`: `user` may edit only a post of their own. The
      check looks at `postId` alone; `username` only builds the redirect.
      The wrapper runs inside `login_required`, so `user` is a stored account. */
  function AuthorRequired(posts: seq<Post>, user: User, username: string, postId: nat): (g: Gate)
    ensures g.CallThrough? <==> exists p :: p in posts && p.author == user && p.id == postId
    ensures g.RedirectTo? ==> g.target == PostPage(username, postId)
  {
    match Find(posts, (p: Post) => p.author == user && p.id == postId)
    case Some(_) => CallThrough
    case None => RedirectTo(PostPage(username, postId))
  }

  /** Whether the wrapped view runs does not depend on the username in the URL. */
  lemma AuthorRequiredIgnoresUsername(posts: seq<Post>, user: User, name1: string, name2: string, postId: nat)
    ensures AuthorRequired(posts, user, name1, postId).CallThrough?
        == AuthorRequired(posts, user, name2, postId).CallThrough?
  {
  }

  /** `login_required_for_page(protected)`: paths outside `protected` are
      open to everybody; a protected path needs an authenticated viewer,
      anybody else is sent to the login page. The list must be given: the
      default `None` makes the membership test itself fail. */
  function LoginRequiredForPage(protected: Option<seq<string>>, path: string, viewer: Viewer): (g: Gate)
    requires protected.Some?
    ensures g.CallThrough? <==> path !in protected.value || viewer.Authenticated?
    ensures g.RedirectTo? ==> g.target == Login
  {
    if path !in protected.value then CallThrough
    else if viewer.Authenticated? then CallThrough
    else RedirectTo(Login)
  }
}
