/**
 * The API as a whole: any request to any endpoint is one `Step`, a session of
 * requests is a `Run`, and the lemmas say what no sequence of requests can do.
 */
module Properties {
  import opened BlogTypes
  import opened StoreSpec

  datatype Action =
    | ListPosts
    | RetrievePost(postId: PostId)
    | CreatePost(payload: Payload)
    | UpdatePost(postId: PostId, payload: Payload)
    | PartialUpdatePost(postId: PostId, payload: Payload)
    | DestroyPost(postId: PostId)
    | ListComments(postId: PostId)
    | CreateComment(postId: PostId, payload: Payload)
    | RetrieveComment(postId: PostId, commentId: CommentId)
    | UpdateComment(postId: PostId, commentId: CommentId, payload: Payload)
    | PartialUpdateComment(postId: PostId, commentId: CommentId, payload: Payload)
    | DestroyComment(postId: PostId, commentId: CommentId)
    | ListFollows(search: Option<string>)
    | CreateFollow(payload: Payload)
    | GroupRequest(verb: Method, groupId: Option<GroupId>)

  /** A request: who sends it (None for an anonymous caller) and what it asks. */
  datatype Request = Request(caller: Option<User>, action: Action)

  /** The router: one request to the endpoint it names. */
  function Step(s: Store, valid: Validator, username: User -> string, req: Request): Outcome {
    var c := req.caller;
    match req.action
    case ListPosts => Outcome(PostList(s), s)
    case RetrievePost(id) => Outcome(PostRetrieve(s, id), s)
    case CreatePost(p) => PostCreate(s, valid, c, p)
    case UpdatePost(id, p) => PostUpdate(s, valid, c, id, p)
    case PartialUpdatePost(id, p) => PostUpdate(s, valid, c, id, p)
    case DestroyPost(id) => PostDestroy(s, c, id)
    case ListComments(postId) => Outcome(CommentList(s, postId), s)
    case CreateComment(postId, p) => CommentCreate(s, valid, c, postId, p)
    case RetrieveComment(postId, id) => Outcome(CommentRetrieve(s, postId, id), s)
    case UpdateComment(postId, id, p) => CommentUpdate(s, valid, c, postId, id, p)
    case PartialUpdateComment(postId, id, p) => CommentPartialUpdate(s, valid, c, postId, id, p)
    case DestroyComment(postId, id) => CommentDestroy(s, c, postId, id)
    case ListFollows(search) => Outcome(FollowList(s, username, c, search), s)
    case CreateFollow(p) => FollowCreate(s, valid, c, p)
    case GroupRequest(verb, id) => Outcome(GroupEndpoint(s, c, verb, id), s)
  }

  /** The store after handling `reqs` one after the other. */
  function Run(s: Store, valid: Validator, username: User -> string, reqs: seq<Request>): Store
    decreases |reqs|
  {
    if reqs == [] then s else Run(Step(s, valid, username, reqs[0]).store, valid, username, reqs[1..])
  }

  /** `a` asks to delete the post `postId`. */
  predicate DeletesPost(a: Action, postId: PostId) {
    a.DestroyPost? && a.postId == postId
  }

  /** Requests that only read. */
  predicate IsRead(a: Action) {
    a.ListPosts? || a.RetrievePost? || a.ListComments? || a.RetrieveComment? || a.ListFollows? || a.GroupRequest?
  }

  // ---------------------------------------------------------------------------
  // One step

  /** Read endpoints, the Group endpoint among them, never change the store. */
  lemma ReadsLeaveStore(s: Store, valid: Validator, username: User -> string, req: Request)
    requires IsRead(req.action)
    ensures Step(s, valid, username, req).store == s
  {
  }

  lemma StepPreservesInv(s: Store, valid: Validator, username: User -> string, req: Request)
    requires Inv(s)
    ensures Inv(Step(s, valid, username, req).store)
  {
    if req.action.CreateFollow? {
      FollowCreatePreservesInv(s, valid, req.caller, req.action.payload);
    }
  }

  /** A step by anyone but the post's author leaves the post exactly as it was. */
  lemma StepKeepsOthersPost(s: Store, valid: Validator, username: User -> string, req: Request, id: PostId)
    requires Inv(s) && id in s.posts
    requires req.caller != Some(s.posts[id].author)
    ensures var s2 := Step(s, valid, username, req).store;
      id in s2.posts && s2.posts[id] == s.posts[id]
  {
  }

  /**
   * A step by anyone but the comment's author, other than a deletion of its
   * parent post (which the database cascades to the comment), keeps the
   * comment, its author and its parent post. Its text is not protected: see
   * StrangerRewritesComment.
   */
  lemma StepKeepsOthersComment(s: Store, valid: Validator, username: User -> string, req: Request, id: CommentId)
    requires Inv(s) && id in s.comments
    requires req.caller != Some(s.comments[id].author)
    requires !DeletesPost(req.action, s.comments[id].post)
    ensures var s2 := Step(s, valid, username, req).store;
      id in s2.comments && s2.comments[id].author == s.comments[id].author
      && s2.comments[id].post == s.comments[id].post
  {
  }

  // ---------------------------------------------------------------------------
  // Deviations of the comment endpoints, as the code behaves

  /**
   * The full update of a comment has no ownership check: any signed-in
   * caller with a valid payload overwrites the text of any comment.
   */
  lemma StrangerRewritesComment(s: Store, valid: Validator, caller: User, postId: PostId, id: CommentId, p: Payload)
    requires id in s.comments && caller != s.comments[id].author
    requires valid(p, false) && p.text.Some?
    ensures var o := CommentUpdate(s, valid, Some(caller), postId, id, p);
      o.response.status == Ok200 && o.store.comments[id].text == p.text.value
      && o.store.comments[id].author == s.comments[id].author
  {
  }

  /**
   * Retrieve and full update look the comment up by its id alone: the post
   * id in the path changes nothing, while partial update and destroy answer
   * 404 for a comment that sits under another post.
   */
  lemma CommentLookupIgnoresPostId(s: Store, valid: Validator, caller: Option<User>,
                                   x: PostId, y: PostId, id: CommentId, p: Payload)
    ensures CommentRetrieve(s, x, id) == CommentRetrieve(s, y, id)
    ensures CommentUpdate(s, valid, caller, x, id, p) == CommentUpdate(s, valid, caller, y, id, p)
    ensures caller.Some? && id in s.comments && s.comments[id].post != x ==>
      && CommentPartialUpdate(s, valid, caller, x, id, p).response == Response(NotFound404, Detail(CommentNotFoundDetail))
      && CommentDestroy(s, caller, x, id).response == Response(NotFound404, Detail(CommentNotFoundDetail))
  {
  }

  // ---------------------------------------------------------------------------
  // Follows

  /**
   * After a successful follow, the same request again is turned away as a
   * duplicate, and exactly one row holds the pair.
   */
  lemma SecondFollowRejected(s: Store, valid: Validator, caller: Option<User>, p: Payload)
    requires Inv(s)
    requires FollowCreate(s, valid, caller, p).response.status == Created201
    ensures var s1 := FollowCreate(s, valid, caller, p).store;
      && FollowCreate(s1, valid, caller, p) == Outcome(Response(ValidationFailed, Detail(AlreadyFollowingDetail)), s1)
      && forall i :: i in s1.follows && s1.follows[i] == Follow(caller.value, p.following.value) <==> i == s.nextFollow
  {
    var s1 := FollowCreate(s, valid, caller, p).store;
    var f := Follow(caller.value, p.following.value);
    assert s1.follows[s.nextFollow] == f;
  }

  // ---------------------------------------------------------------------------
  // Whole sessions

  lemma {:induction false} RunPreservesInv(s: Store, valid: Validator, username: User -> string, reqs: seq<Request>)
    requires Inv(s)
    ensures Inv(Run(s, valid, username, reqs))
    decreases |reqs|
  {
    if reqs != [] {
      StepPreservesInv(s, valid, username, reqs[0]);
      RunPreservesInv(Step(s, valid, username, reqs[0]).store, valid, username, reqs[1..]);
    }
  }

  /** From the empty store, no session ever stores a self-follow or a duplicate pair. */
  lemma FollowsStayWellFormed(groups: map<GroupId, Group>, valid: Validator, username: User -> string, reqs: seq<Request>)
    ensures var s := Run(EmptyStore(groups), valid, username, reqs);
      NoSelfFollow(s.follows) && NoDuplicateFollow(s.follows)
  {
    RunPreservesInv(EmptyStore(groups), valid, username, reqs);
  }

  /** No session without its author changes or removes a post. */
  lemma {:induction false} OthersCannotTouchPost(s: Store, valid: Validator, username: User -> string,
                                                 reqs: seq<Request>, id: PostId)
    requires Inv(s) && id in s.posts
    requires forall i :: 0 <= i < |reqs| ==> reqs[i].caller != Some(s.posts[id].author)
    ensures var s2 := Run(s, valid, username, reqs);
      id in s2.posts && s2.posts[id] == s.posts[id]
    decreases |reqs|
  {
    if reqs != [] {
      var s1 := Step(s, valid, username, reqs[0]).store;
      StepKeepsOthersPost(s, valid, username, reqs[0], id);
      StepPreservesInv(s, valid, username, reqs[0]);
      OthersCannotTouchPost(s1, valid, username, reqs[1..], id);
    }
  }

  /**
   * No session without requests by the comment's author, and without a
   * deletion of its parent post, removes the comment or moves it to another
   * author or post.
   */
  lemma {:induction false} OthersCannotRemoveComment(s: Store, valid: Validator, username: User -> string,
                                                     reqs: seq<Request>, id: CommentId)
    requires Inv(s) && id in s.comments
    requires forall i :: 0 <= i < |reqs| ==> reqs[i].caller != Some(s.comments[id].author)
    requires forall i :: 0 <= i < |reqs| ==> !DeletesPost(reqs[i].action, s.comments[id].post)
    ensures var s2 := Run(s, valid, username, reqs);
      id in s2.comments && s2.comments[id].author == s.comments[id].author
      && s2.comments[id].post == s.comments[id].post
    decreases |reqs|
  {
    if reqs != [] {
      var s1 := Step(s, valid, username, reqs[0]).store;
      StepKeepsOthersComment(s, valid, username, reqs[0], id);
      StepPreservesInv(s, valid, username, reqs[0]);
      OthersCannotRemoveComment(s1, valid, username, reqs[1..], id);
    }
  }

  /** Groups are managed elsewhere: no session changes them. */
  lemma {:induction false} GroupsNeverChange(s: Store, valid: Validator, username: User -> string, reqs: seq<Request>)
    ensures Run(s, valid, username, reqs).groups == s.groups
    decreases |reqs|
  {
    if reqs != [] {
      GroupsNeverChange(Step(s, valid, username, reqs[0]).store, valid, username, reqs[1..]);
    }
  }
}
