/**
 * The view sets of the API as methods on one shared in-memory store. Each
 * method runs the view's checks in order, returns early with the first
 * failure, and only then writes the table it saves to. Its contract ties the
 * response and the new store to the endpoint's function in StoreSpec.
 */
module Views {
  import opened BlogTypes
  import StoreSpec

  class Blog {
    var posts: map<PostId, Post>
    var comments: map<CommentId, Comment>
    var follows: map<FollowId, Follow>
    /** Groups are seeded by administrators; nothing here writes them. */
    const groups: map<GroupId, Group>
    var nextPost: nat
    var nextComment: nat
    var nextFollow: nat
    /** The serializers' validation, outside this layer. */
    const valid: Validator
    /** The `username` column of the user table. */
    const username: User -> string

    function State(): StoreSpec.Store
      reads this
    {
      StoreSpec.Store(posts, comments, follows, groups, nextPost, nextComment, nextFollow)
    }

    ghost predicate Valid()
      reads this
    {
      StoreSpec.Inv(State())
    }

    constructor (groups: map<GroupId, Group>, valid: Validator, username: User -> string)
      ensures Valid() && State() == StoreSpec.EmptyStore(groups)
      ensures this.valid == valid && this.username == username
    {
      posts, comments, follows := map[], map[], map[];
      this.groups := groups;
      nextPost, nextComment, nextFollow := 0, 0, 0;
      this.valid := valid;
      this.username := username;
    }

    // -------------------------------------------------------------------------
    // PostViewSet

    method PostList() returns (r: Response)
      ensures r == StoreSpec.PostList(State())
    {
      r := Response(Ok200, PostPage(posts));
    }

    method PostRetrieve(id: PostId) returns (r: Response)
      ensures r == StoreSpec.PostRetrieve(State(), id)
    {
      if id !in posts {
        return LookupFailed;
      }
      r := Response(Ok200, PostRep(id, posts[id]));
    }

    method PostCreate(caller: Option<User>, p: Payload) returns (r: Response)
      requires Valid()
      modifies this
      ensures Valid()
      ensures StoreSpec.Outcome(r, State()) == StoreSpec.PostCreate(old(State()), valid, caller, p)
    {
      if caller.None? {
        return Unauthorized;
      }
      if !valid(p, false) {
        return Invalid;
      }
      var id := nextPost;
      var post := StoreSpec.NewPost(caller.value, p);
      posts := posts[id := post];
      nextPost := nextPost + 1;
      r := Response(Created201, PostRep(id, post));
    }

    method PostUpdate(caller: Option<User>, id: PostId, p: Payload) returns (r: Response)
      requires Valid()
      modifies this
      ensures Valid()
      ensures StoreSpec.Outcome(r, State()) == StoreSpec.PostUpdate(old(State()), valid, caller, id, p)
    {
      if caller.None? {
        return Unauthorized;
      }
      if id !in posts {
        return LookupFailed;
      }
      var instance := posts[id];
      if instance.author != caller.value {
        return Response(Forbidden403, Detail(NoRightsDetail));
      }
      if !valid(p, false) {
        return Invalid;
      }
      var post := StoreSpec.UpdatedPost(instance, p);
      posts := posts[id := post];
      r := Response(Ok200, PostRep(id, post));
    }

    /** PATCH: DRF's `partial_update` hands over to the overridden `update`. */
    method PostPartialUpdate(caller: Option<User>, id: PostId, p: Payload) returns (r: Response)
      requires Valid()
      modifies this
      ensures Valid()
      ensures StoreSpec.Outcome(r, State()) == StoreSpec.PostUpdate(old(State()), valid, caller, id, p)
    {
      r := PostUpdate(caller, id, p);
    }

    method PostDestroy(caller: Option<User>, id: PostId) returns (r: Response)
      requires Valid()
      modifies this
      ensures Valid()
      ensures StoreSpec.Outcome(r, State()) == StoreSpec.PostDestroy(old(State()), caller, id)
    {
      if caller.None? {
        return Unauthorized;
      }
      if id !in posts {
        return LookupFailed;
      }
      var instance := posts[id];
      if instance.author != caller.value {
        return Response(Forbidden403, Detail(NoRightsDetail));
      }
      posts := posts - {id};
      r := Response(NoContent204, Empty);
    }

    // -------------------------------------------------------------------------
    // CommentViewSet

    method CommentList(postId: PostId) returns (r: Response)
      ensures r == StoreSpec.CommentList(State(), postId)
    {
      r := Response(Ok200, CommentIds(StoreSpec.CommentQueryset(State(), postId)));
    }

    method CommentCreate(caller: Option<User>, postId: PostId, p: Payload) returns (r: Response)
      requires Valid()
      modifies this
      ensures Valid()
      ensures StoreSpec.Outcome(r, State()) == StoreSpec.CommentCreate(old(State()), valid, caller, postId, p)
    {
      if caller.None? {
        return Unauthorized;
      }
      if !valid(p, false) {
        return Invalid;
      }
      if postId !in posts {
        return LookupFailed;
      }
      var id := nextComment;
      var c := StoreSpec.NewComment(caller.value, postId, p);
      comments := comments[id := c];
      nextComment := nextComment + 1;
      r := Response(Created201, CommentRep(id, c));
    }

    method CommentRetrieve(postId: PostId, id: CommentId) returns (r: Response)
      ensures r == StoreSpec.CommentRetrieve(State(), postId, id)
    {
      if id !in comments {
        return Response(NotFound404, Detail(PageNotFoundDetail));
      }
      r := Response(Ok200, CommentRep(id, comments[id]));
    }

    method CommentUpdate(caller: Option<User>, postId: PostId, id: CommentId, p: Payload) returns (r: Response)
      requires Valid()
      modifies this
      ensures Valid()
      ensures StoreSpec.Outcome(r, State()) == StoreSpec.CommentUpdate(old(State()), valid, caller, postId, id, p)
    {
      if caller.None? {
        return Unauthorized;
      }
      if id !in comments {
        return Response(NotFound404, Detail(CommentNotFoundDetail));
      }
      if !valid(p, false) {
        return Invalid;
      }
      var c := StoreSpec.UpdatedComment(comments[id], p);
      comments := comments[id := c];
      r := Response(Ok200, CommentRep(id, c));
    }

    method CommentPartialUpdate(caller: Option<User>, postId: PostId, id: CommentId, p: Payload) returns (r: Response)
      requires Valid()
      modifies this
      ensures Valid()
      ensures StoreSpec.Outcome(r, State()) == StoreSpec.CommentPartialUpdate(old(State()), valid, caller, postId, id, p)
    {
      if caller.None? {
        return Unauthorized;
      }
      if id !in comments || comments[id].post != postId {
        return Response(NotFound404, Detail(CommentNotFoundDetail));
      }
      var instance := comments[id];
      if instance.author != caller.value {
        return Response(Forbidden403, Detail(NoRightsToEditCommentDetail));
      }
      if !valid(p, true) {
        return Invalid;
      }
      var c := StoreSpec.UpdatedComment(instance, p);
      comments := comments[id := c];
      r := Response(Ok200, CommentRep(id, c));
    }

    method CommentDestroy(caller: Option<User>, postId: PostId, id: CommentId) returns (r: Response)
      requires Valid()
      modifies this
      ensures Valid()
      ensures StoreSpec.Outcome(r, State()) == StoreSpec.CommentDestroy(old(State()), caller, postId, id)
    {
      if caller.None? {
        return Unauthorized;
      }
      if id !in comments || comments[id].post != postId {
        return Response(NotFound404, Detail(CommentNotFoundDetail));
      }
      if comments[id].author != caller.value {
        return Response(Forbidden403, Detail(NoRightsDetail));
      }
      comments := comments - {id};
      r := Response(NoContent204, Empty);
    }

    // -------------------------------------------------------------------------
    // FollowViewSet

    method FollowList(caller: Option<User>, search: Option<string>) returns (r: Response)
      ensures r == StoreSpec.FollowList(State(), username, caller, search)
    {
      if caller.None? {
        return Unauthorized;
      }
      r := Response(Ok200, FollowIds(StoreSpec.FollowQueryset(State(), username, caller.value, search)));
    }

    method FollowCreate(caller: Option<User>, p: Payload) returns (r: Response)
      requires Valid()
      modifies this
      ensures Valid()
      ensures StoreSpec.Outcome(r, State()) == StoreSpec.FollowCreate(old(State()), valid, caller, p)
    {
      StoreSpec.FollowCreatePreservesInv(State(), valid, caller, p);
      if caller.None? {
        return Unauthorized;
      }
      if !valid(p, false) || p.following.None? {
        return Invalid;
      }
      var followingUser := p.following.value;
      if followingUser == caller.value {
        return Response(ValidationFailed, Detail(SelfFollowDetail));
      }
      if StoreSpec.FollowExists(follows, caller.value, followingUser) {
        return Response(ValidationFailed, Detail(AlreadyFollowingDetail));
      }
      var id := nextFollow;
      var f := Follow(caller.value, followingUser);
      follows := follows[id := f];
      nextFollow := nextFollow + 1;
      r := Response(Created201, FollowRep(id, f));
    }

    // -------------------------------------------------------------------------
    // GroupViewSet

    method GroupRequest(caller: Option<User>, verb: Method, id: Option<GroupId>) returns (r: Response)
      ensures r == StoreSpec.GroupEndpoint(State(), caller, verb, id)
    {
      if !verb.IsSafe() {
        if caller.None? {
          return Unauthorized;
        }
        return Response(MethodNotAllowed, FrameworkError);
      }
      if verb.Options? {
        return Response(Ok200, Metadata);
      }
      if id.None? {
        return Response(Ok200, GroupPage(groups));
      }
      if id.value !in groups {
        return LookupFailed;
      }
      r := Response(Ok200, GroupRep(id.value, groups[id.value]));
    }
  }
}
