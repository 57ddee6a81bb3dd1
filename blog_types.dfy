/** Entities, request payloads and responses of the yatube REST API. */
module BlogTypes {

  datatype Option<+T> = None | Some(value: T) {
    function GetOr(default: T): T {
      match this
      case Some(v) => v
      case None => default
    }
  }

  /** A user of the platform. Only equality is observable at this layer. */
  type User(==)

  type PostId = nat
  type CommentId = nat
  type FollowId = nat
  type GroupId = nat

  /** A post; its author is stored with it and never changes after creation. */
  datatype Post = Post(text: string, author: User, group: Option<GroupId>)

  /** A comment; `post` is the parent post it was created under. */
  datatype Comment = Comment(text: string, author: User, post: PostId)

  /** A follow row: `user` follows `following`. */
  datatype Follow = Follow(user: User, following: User)

  datatype Group = Group(title: string, slug: string, description: string)

  /**
   * The request body as sent by the client. Every field may be absent; the
   * author, post and user fields are what a client may try to smuggle in, and
   * the server never takes them from here.
   */
  datatype Payload = Payload(
    text: Option<string>,
    group: Option<GroupId>,
    author: Option<User>,
    post: Option<PostId>,
    user: Option<User>,
    following: Option<User>)

  /** The serializer check: `valid(p, partial)` holds when `p` validates, `partial` as in DRF. */
  type Validator = (Payload, bool) -> bool

  datatype Method = Get | Head | Options | PostMethod | Put | Patch | Delete {
    /** The methods `IsAuthenticatedOrReadOnly` lets an anonymous caller use. */
    predicate IsSafe() {
      Get? || Head? || Options?
    }
  }

  datatype Status =
    | Ok200
    | Created201
    | NoContent204
    | ValidationFailed
    | Unauthorized401
    | Forbidden403
    | NotFound404
    | MethodNotAllowed

  datatype Body =
    | Empty
    | Detail(message: string)
    /** An error whose body the framework writes (permission, lookup, serializer errors). */
    | FrameworkError
    | PostRep(postId: PostId, post: Post)
    | PostPage(posts: map<PostId, Post>)
    | CommentRep(commentId: CommentId, comment: Comment)
    | CommentIds(comments: set<CommentId>)
    | FollowRep(followId: FollowId, follow: Follow)
    | FollowIds(follows: set<FollowId>)
    | GroupRep(groupId: GroupId, group: Group)
    | GroupPage(groups: map<GroupId, Group>)
    /** The answer to OPTIONS: the endpoint's metadata. */
    | Metadata

  datatype Response = Response(status: Status, body: Body)

  const NoRightsDetail := "У вас недостаточно прав для выполнения данного действия."
  const NoRightsToEditCommentDetail := "У вас недостаточно прав для редактирования комментария"
  const PageNotFoundDetail := "Страница не найдена."
  const CommentNotFoundDetail := "Комментарий не найден"
  const SelfFollowDetail := "Нельзя подписаться на самого себя"
  const AlreadyFollowingDetail := "Вы уже подписаны на этого пользователя"

  /** What `IsAuthenticated` / `IsAuthenticatedOrReadOnly` answer to an anonymous caller. */
  const Unauthorized := Response(Unauthorized401, FrameworkError)
  /** What `get_object` / `get_object_or_404` answer when the lookup finds nothing. */
  const LookupFailed := Response(NotFound404, FrameworkError)
  /** What `is_valid(raise_exception=True)` answers to a payload that does not validate. */
  const Invalid := Response(ValidationFailed, FrameworkError)
}
