/** What a view sees of a request and what it may answer. */
module Http {
  import opened Models

  /** `request.user`: nobody, or a stored account. */
  datatype Viewer = Anonymous | Authenticated(user: User)

  /** The named routes the views redirect to: the login page, a profile
      page `/<username>/` and a post page `/<username>/<post_id>/`. */
  datatype Url = Login | Profile(username: string) | PostPage(username: string, postId: nat)

  /** A rendered page with its context, a redirect, or "404 not found". */
  datatype Response<C> = Render(context: C) | Redirect(to: Url) | NotFound

  /** The path of the `follow_index` route. */
  const FollowIndexPath: string := "/follow/"
}
