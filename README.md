# yatube API: access control and resource lifecycle

This project models the view layer of the yatube blogging API
(`yatube_api/api/views.py`). It covers the posts, comments, follows and groups endpoints,
and the rules they enforce before they touch the database:

- only the author may change or delete a post or comment;
- the author, the parent post and the follower are set by the server;
- comments are scoped to the post in the URL;
- a user may not follow themself or follow the same user twice;
- group endpoints are read-only.

The model has three layers:

- `blog_types.dfy` (`BlogTypes`) holds the entities: a post, a comment, a follow row and a
  group. It also holds the request payload, the HTTP methods, the response codes and the
  fixed `detail` messages of the views. A user is an abstract type with equality.
- `store_spec.dfy` (`StoreSpec`) holds the database as a value, `Store`, which has four
  tables and the next primary key of each. It has one function per endpoint that gives the
  response and the new store. Each function's contract spells out the rules: the error each
  status code stands for, in both directions; a store left exactly as it was on every
  rejection; and exactly which row changes on success. The serializers' validation is a
  parameter `valid(payload, partial)`. The user table's `username` column is a parameter
  `username: User -> string`.
- `views.dfy` (`Views`) holds the imperative form: a class `Blog` whose fields are the
  tables as maps. It has one method per endpoint of `PostViewSet`, `CommentViewSet`,
  `FollowViewSet` and `GroupViewSet`. Each method runs the view's checks in order. It
  returns at the first failed check and writes its table only after the last check passes.
  Its contract equates the response and the new state with the `StoreSpec` function applied
  to the old state. It also keeps the `Valid()` invariant: keys are fresh, there is no
  self-follow and there is no duplicate follow.

`text_search.dfy` (`TextSearch`) defines the `icontains` lookup of the follow search. It is
a substring test, proved against an independent "occurs at position k" definition, applied
after ASCII folding to lower case (`Lower`, `Fold`).

`properties.dfy` (`Properties`) routes any request to its endpoint (`Step`) and runs
sessions of requests (`Run`). It proves what no session of the modelled endpoints can do:

- break the follow invariants (the follow detail routes, which could update a row, are not
  modelled);
- change or remove a post, unless the post's author sends a request;
- remove a comment or reassign its author or post, unless the comment's author sends a
  request or someone deletes the comment's parent post;
- change a group.

It also states the two deviations of the comment endpoints, as the code behaves:

- The full update (PUT) of a comment has no ownership check.
- Retrieve and full update look a comment up by its id alone. A post id in the path that
  does not match is ignored.

Where the response is the framework's own (the permission layer's 401, `get_object`'s 404,
a serializer's 400, the 405 of `http_method_names`), the body is `FrameworkError` and its
text is not modelled. Where the view writes a `detail` message, the model carries the exact
string.

Points where the code decides differently from what one might expect:

- A PATCH on a post goes through DRF's `partial_update`, which hands over to the overridden
  `update`. That `update` ignores `partial=True` and validates the payload in full
  (`views.py:54-64`). So `PostPartialUpdate` is `PostUpdate`.
- Comment creation is DRF's inherited `create`. It validates the payload before
  `perform_create` looks the parent post up. So an invalid payload under a missing post
  gets 400, not 404 (`views.py:74-77`).
- An anonymous request with an unsafe method, and any anonymous follow request, is
  rejected by the permission classes before the handler runs; anonymous GET, HEAD and
  OPTIONS on posts, comments and groups are served. The rejection also covers a non-read
  method on groups: DRF's `initial()` runs before the `http_method_names` test, so an
  anonymous POST to groups gets 401 and a signed-in one gets 405.
- A validation failure is DRF's 400 (`ValidationFailed`).

## Model

| member | source | states |
|---|---|---|
| `StoreSpec.PostList` | yatube_api/api/views.py:19-21 | the list answers 200 with every stored post |
| `Views.Blog.PostList` | yatube_api/api/views.py:19-21 | the method's response is exactly the list of all posts in the current store |
| `StoreSpec.PostRetrieve` | yatube_api/api/views.py:23-26 | 200 with the post iff the id is stored, otherwise the lookup's 404 |
| `Views.Blog.PostRetrieve` | yatube_api/api/views.py:23-26 | the method answers as the retrieve rule on the current store |
| `StoreSpec.NewPost` | yatube_api/api/views.py:40-41 | the created post's author is the caller, and its text and group are the payload's |
| `StoreSpec.UpdatedPost` | yatube_api/api/views.py:61-63 | an update replaces the text (and group) the payload carries and never the author |
| `StoreSpec.PostCreate` | yatube_api/api/views.py:40-52 | 401 for anonymous, 400 for an invalid payload, both with the store unchanged; 201 iff signed in and valid, adding exactly one post under a fresh key (under the invariant), with the caller as author whatever author the payload names, and the payload's text and group, and no other table touched |
| `Views.Blog.PostCreate` | yatube_api/api/views.py:43-52 | response and new store are those of `StoreSpec.PostCreate` on the old store; the invariant is kept |
| `StoreSpec.PostUpdate` | yatube_api/api/views.py:54-64 | 401 / 404 / 403 with the no-rights detail / 400, in that order, each with the store unchanged; 200 iff the caller is the stored author and the payload validates, replacing only that post's fields |
| `Views.Blog.PostUpdate` | yatube_api/api/views.py:54-64 | response and new store are those of `StoreSpec.PostUpdate`; the invariant is kept |
| `Views.Blog.PostPartialUpdate` | yatube_api/api/views.py:54-64 | PATCH behaves exactly as the full update, validation included |
| `StoreSpec.PostDestroy` | yatube_api/api/views.py:28-38 | 401 / 404 / 403 with the no-rights detail leave the store unchanged; 204 with an empty body iff the caller is the stored author, removing exactly that post |
| `Views.Blog.PostDestroy` | yatube_api/api/views.py:28-38 | response and new store are those of `StoreSpec.PostDestroy`; the invariant is kept |
| `StoreSpec.CommentQueryset` | yatube_api/api/views.py:70-72 | a comment id is in the queryset iff it is stored and its post is the path's post |
| `StoreSpec.CommentList` | yatube_api/api/views.py:67-72 | the list answers 200 with exactly the comments whose post is the path's post, whether or not that post exists |
| `Views.Blog.CommentList` | yatube_api/api/views.py:70-72 | the method answers with the scoped queryset of the current store |
| `StoreSpec.NewComment` | yatube_api/api/views.py:74-77 | the created comment's post is the path's post, its author is the caller and its text is the payload's |
| `StoreSpec.UpdatedComment` | yatube_api/api/views.py:92-96 | an update replaces the text and keeps the author and the post |
| `StoreSpec.CommentCreate` | yatube_api/api/views.py:74-77 | 401, then 400, then 404 for a missing post, each with the store unchanged; 201 iff signed in, valid and the post exists, adding exactly one comment under a fresh key (under the invariant), whose post and author come from the path and the caller, overriding the payload, and whose text is the payload's |
| `Views.Blog.CommentCreate` | yatube_api/api/views.py:74-77 | response and new store are those of `StoreSpec.CommentCreate`; the invariant is kept |
| `StoreSpec.CommentRetrieve` | yatube_api/api/views.py:79-87 | 200 with the comment iff its id is stored anywhere, otherwise 404 with "page not found" |
| `Views.Blog.CommentRetrieve` | yatube_api/api/views.py:79-87 | the method answers as the retrieve rule on the current store |
| `StoreSpec.CommentUpdate` | yatube_api/api/views.py:89-102 | 401, then 404 with "comment not found" if the id is stored nowhere, then 400; 200 iff signed in, stored and valid, whoever the caller is, replacing only that comment's text |
| `Views.Blog.CommentUpdate` | yatube_api/api/views.py:89-102 | response and new store are those of `StoreSpec.CommentUpdate`; the invariant is kept |
| `StoreSpec.CommentPartialUpdate` | yatube_api/api/views.py:104-129 | 401, then 404 if the id is not among the post's comments, then 403 with the edit-rights detail for a non-author, then 400, each with the store unchanged; 200 iff the author sends a valid partial payload, changing only that comment |
| `Views.Blog.CommentPartialUpdate` | yatube_api/api/views.py:104-129 | response and new store are those of `StoreSpec.CommentPartialUpdate`; the invariant is kept |
| `StoreSpec.CommentDestroy` | yatube_api/api/views.py:131-146 | 401, 404 outside the post's comments, 403 for a non-author, each with the store unchanged; 204 iff the author asks, removing only that comment |
| `Views.Blog.CommentDestroy` | yatube_api/api/views.py:131-146 | response and new store are those of `StoreSpec.CommentDestroy`; the invariant is kept |
| `TextSearch.LowerEqualIff` | yatube_api/api/views.py:168-170 | two characters fold alike iff they are equal or one ASCII letter in two cases |
| `TextSearch.LowerLeavesNoCapital` | yatube_api/api/views.py:168-170 | no ASCII capital survives folding |
| `TextSearch.FoldIdempotent` | yatube_api/api/views.py:168-170 | folding a folded string changes nothing |
| `TextSearch.Contains` | yatube_api/api/views.py:168-170 | the scan answers true iff the term occurs at some position |
| `TextSearch.IContains` | yatube_api/api/views.py:168-170 | `icontains` holds iff the folded term occurs in the folded username |
| `TextSearch.IContainsIgnoresCase` | yatube_api/api/views.py:168-170 | a term matches any occurrence that equals it up to case |
| `TextSearch.EmptyTermMatchesAll` | yatube_api/api/views.py:166-170 | the empty term matches every username |
| `StoreSpec.SearchMatches` | yatube_api/api/views.py:166-170 | a missing or empty term keeps every row, any other term keeps the rows it `icontains`-matches |
| `StoreSpec.FollowQueryset` | yatube_api/api/views.py:164-171 | a row is listed iff it is the caller's and its following user's username matches the search |
| `StoreSpec.SearchOnlyNarrows` | yatube_api/api/views.py:166-170 | a search term only removes rows from the caller's list, and the empty term removes none |
| `StoreSpec.FollowList` | yatube_api/api/views.py:149-171 | 401 exactly for the anonymous caller; otherwise 200 listing a row iff it is the caller's and its following user's username matches the search |
| `Views.Blog.FollowList` | yatube_api/api/views.py:155-171 | the method answers as the list rule on the current store |
| `StoreSpec.FollowCreate` | yatube_api/api/views.py:173-198 | 401, then 400 for an invalid payload, then the self-follow detail, then the already-following detail, each with the store unchanged; 201 iff every check passes, adding one row (caller, following) |
| `Views.Blog.FollowCreate` | yatube_api/api/views.py:173-198 | response and new store are those of `StoreSpec.FollowCreate`; the invariant is kept |
| `StoreSpec.GroupEndpoint` | yatube_api/api/views.py:201-204 | a non-read method is refused, 401 anonymous and 405 signed in; GET and HEAD list the groups or return the one asked for, 404 if missing; OPTIONS answers 200 with the metadata |
| `Views.Blog.GroupRequest` | yatube_api/api/views.py:201-204 | the method answers as the group rule on the current store |
| `StoreSpec.EmptyStore` | yatube_api/api/views.py:176-187 | the empty database satisfies the invariants |
| `Properties.ReadsLeaveStore` | yatube_api/api/views.py:201-204 | list, retrieve and every group request leave the store unchanged |
| `StoreSpec.FollowCreatePreservesInv` | yatube_api/api/views.py:176-187 | a follow creation never stores a self-pair or a duplicate pair |
| `Properties.StepPreservesInv` | yatube_api/api/views.py:173-187 | no request breaks fresh keys, no-self-follow or no-duplicate-follow |
| `Properties.StepKeepsOthersPost` | yatube_api/api/views.py:28-64 | a request by anyone but its author leaves a post exactly as it was |
| `Properties.StepKeepsOthersComment` | yatube_api/api/views.py:104-146 | a request by anyone but its author, other than deleting its parent post, keeps a comment, its author and its post |
| `Properties.StrangerRewritesComment` | yatube_api/api/views.py:89-98 | a signed-in non-author's valid full update succeeds and rewrites the comment's text |
| `Properties.CommentLookupIgnoresPostId` | yatube_api/api/views.py:79-98 | retrieve and full update do not depend on the path's post id, while partial update and destroy answer 404 for a comment of another post |
| `Properties.SecondFollowRejected` | yatube_api/api/views.py:180-185 | repeating a successful follow is rejected as a duplicate, and exactly one row holds the pair |
| `Properties.RunPreservesInv` | yatube_api/api/views.py:173-187 | every session of requests keeps the invariants |
| `Properties.FollowsStayWellFormed` | yatube_api/api/views.py:176-187 | from an empty database, the follow table never holds a self-pair or a duplicate pair |
| `Properties.OthersCannotTouchPost` | yatube_api/api/views.py:28-64 | a session without the author's requests leaves the post exactly as it was |
| `Properties.OthersCannotRemoveComment` | yatube_api/api/views.py:131-146 | a session without the author's requests and without a deletion of the parent post keeps the comment, its author and its post |
| `Properties.GroupsNeverChange` | yatube_api/api/views.py:201-204 | no session changes the groups |

## Left out

- `yatube_api/yatube_api/urls.py` and `api/urls.py` are URL routing, admin, templates and
  static files. `Properties.Step` stands in for the router. The follow detail routes that a
  router could register for `FollowViewSet` are not part of this model.
- JWT issuance and verification: the caller is an input, `None` when anonymous.
- The serializers (`api/serializers.py`) are not part of this model. Their validation is
  the `valid` parameter. The model assumes:
  - a follow payload without a `following` user fails validation;
  - on update, only the text (and a post's group) is written, and author, post and user
    are read-only;
  - an absent text creates an empty one;
  - setting a group back to null, images and timestamps are not modelled.
- Cascading deletion, defined in `posts/models.py` (not part of this model): deleting a
  post removes only the post, and its comments are not cascaded.
- StepKeepsOthersComment, OthersCannotRemoveComment: because the model does not cascade,
  these lemmas exclude a deletion of the comment's parent post from their hypotheses. With
  the database's cascade, that deletion by the post's author also removes other users'
  comments, and the lemmas make no claim about it.
- Rendering of responses, headers, and the framework's own error texts (`FrameworkError`).
- `LimitOffsetPagination`: lists answer with the whole set, not a page, and without order.
- The generic `SearchFilter` backend: only the explicit `icontains` filter is modelled.
- Case folding (`TextSearch.Lower`) is ASCII-only, as SQLite's `LIKE` does; Unicode folding
  (Cyrillic usernames, for one) is not modelled.
- The database's uniqueness constraint and the race between the duplicate check and the
  insert: requests are handled one at a time.
- The anonymous branch of `FollowViewSet.get_queryset` that returns a `Response`
  (`views.py:156-162`). `IsAuthenticated` rejects an anonymous caller first, so the model
  answers with the permission layer's 401.
- HEAD is answered like GET. OPTIONS answers with `Metadata`, whose content is not modelled.
